/**
 The alternate-screen scanner (internal/termui/altscreen.go) and what its
 answer is worth to a client that has not seen every chunk of the output.
 */
module AltScreen {
  import opened Bytes
  import opened ModeTracker

  datatype Screen = Unknown | Main | Alt

  datatype Alternate = Alternate(state: Screen, scan: Scan, param: nat, hit: bool, invalid: bool)

  predicate IsAltParam(p: nat) { p == 1049 || p == 1047 || p == 47 }

  function New(initial: Screen): Alternate { Alternate(initial, Ground, 0, false, false) }

  function Reset(t: Alternate): Alternate { t.(state := Unknown, scan := Ground) }

  function AltStepIgnore(t: Alternate, b: byte): Alternate {
    t.(scan := if 0x40 <= b <= 0x7e then Ground else Ignore)
  }

  function AltStepPrivate(t: Alternate, b: byte): Alternate {
    if IsDigit(b) then t.(param := AddDigit(t.param, b))
    else if b == SEMICOLON || b == COLON then t.(hit := t.hit || IsAltParam(t.param), param := 0)
    else if 0x20 <= b <= 0x2f then t.(invalid := true)
    else if 0x40 <= b <= 0x7e then
      t.(scan := Ground,
      state := if !t.invalid && (t.hit || IsAltParam(t.param)) && b == SET then Alt
      else if !t.invalid && (t.hit || IsAltParam(t.param)) && b == RESET then Main
      else t.state)
    else t
  }

  /** The scanner as a one-byte automaton. */
  function AltStep(t: Alternate, b: byte): Alternate {
    if b == ESC then t.(scan := Esc)
    else if t.scan == Ground then t
    else if b == CAN || b == SUB then t.(scan := Ground)
    else
      match t.scan
      case Esc =>
        if b == BRACKET then t.(scan := Csi)
        else if b == 0x63 then t.(state := Main, scan := Ground)
        else t.(scan := Ground)
      case Csi =>
        if b == QUESTION then t.(scan := Private, param := 0, hit := false, invalid := false)
        else AltStepIgnore(t, b)
      case Private => AltStepPrivate(t, b)
      case Ignore => AltStepIgnore(t, b)
  }

  function AltFold(t: Alternate, p: seq<byte>): Alternate
    decreases |p|
  {
    if p == [] then t else AltFold(AltStep(t, p[0]), p[1..])
  }

  lemma {:induction false} AltFoldConcat(t: Alternate, p: seq<byte>, q: seq<byte>)
    ensures AltFold(t, p + q) == AltFold(AltFold(t, p), q)
    decreases |p|
  {
    if p == [] {
      assert p + q == q;
    } else {
      assert (p + q)[1..] == p[1..] + q;
      AltFoldConcat(AltStep(t, p[0]), p[1..], q);
    }
  }

  lemma {:induction false} AltGroundSkips(t: Alternate, p: seq<byte>, k: nat)
    requires t.scan == Ground && k <= |p|
    requires forall i :: 0 <= i < k ==> p[i] != ESC
    ensures AltFold(t, p) == AltFold(t, p[k..])
  {
    if k == 0 {
      assert p[k..] == p;
    } else {
      assert p[1..][k - 1..] == p[k..];
      AltGroundSkips(t, p[1..], k - 1);
    }
  }

  class AltScreenTracker {
    var state: Screen
    var scan: Scan
    var param: nat
    var hit: bool
    var invalid: bool

    constructor (initial: Screen)
      ensures View() == New(initial)
    {
      state, scan, param, hit, invalid := initial, Ground, 0, false, false;
    }

    function View(): Alternate
      reads this
    {
      Alternate(state, scan, param, hit, invalid)
    }

    method ResetState()
      modifies this
      ensures View() == Reset(old(View()))
    {
      state, scan := Unknown, Ground;
    }

    /** The parameters of a private sequence. */
    method ScanPrivate(b: byte)
      requires scan == Private && b != ESC && b != CAN && b != SUB
      modifies this
      ensures View() == AltStep(old(View()), b)
    {
      if IsDigit(b) {
        if param < MAX_PARAM {
          param := param * 10 + (b as nat - 0x30);
        }
      } else if b == SEMICOLON || b == COLON {
        if IsAltParam(param) {
          hit := true;
        }
        param := 0;
      } else if 0x20 <= b <= 0x2f {
        invalid := true;
      } else if 0x40 <= b <= 0x7e {
        if !invalid && (hit || IsAltParam(param)) {
          if b == SET {
            state := Alt;
          } else if b == RESET {
            state := Main;
          }
        }
        scan := Ground;
      }
    }

    /**
     Scan. The byte after ESC [ of an unrelated sequence is read again in the
     ignore state, so the index can stand still; the scan state then moves on.
     */
    method Scan(p: seq<byte>) returns (r: Screen)
      modifies this
      ensures View() == AltFold(old(View()), p)
      ensures r == state
    {
      ghost var want := AltFold(View(), p);
      var i := 0;
      assert p[0..] == p;
      while i < |p|
        invariant 0 <= i <= |p| && AltFold(View(), p[i..]) == want
        decreases |p| - i, if scan == Csi then 1 else 0
      {
        assert p[i..][1..] == p[i + 1..];
        if scan == Ground {
          var j := IndexByte(p, i, ESC);
          AltGroundSkips(View(), p[i..], if j < 0 then |p| - i else j - i);
          if j < 0 {
            assert p[i..][|p| - i..] == [];
            return state;
          }
          assert p[i..][j - i..] == p[j..];
          assert p[j..][1..] == p[j + 1..];
          scan := Esc;
          i := j + 1;
        } else {
          var b := p[i];
          if b == ESC {
            scan := Esc;
          } else if b == CAN || b == SUB {
            scan := Ground;
          } else {
            match scan {
              case Esc =>
                if b == BRACKET {
                  scan := Csi;
                } else if b == 0x63 {
                  state := Main;
                  scan := Ground;
                } else {
                  scan := Ground;
                }
              case Csi =>
                if b == QUESTION {
                  scan, param, hit, invalid := Private, 0, false, false;
                } else {
                  scan := Ignore;
                  i := i - 1;
                }
              case Private => ScanPrivate(b);
              case Ignore =>
                if 0x40 <= b <= 0x7e {
                  scan := Ground;
                }
            }
          }
          i := i + 1;
        }
      }
      r := state;
    }
  }

  // The ignore state is invisible.

  function Lean(t: Alternate): Alternate { t.(scan := if t.scan == Ignore then Ground else t.scan) }

  /** A scanner that returns to text right after the introducer of an unrelated sequence. */
  function LeanStep(t: Alternate, b: byte): Alternate {
    if t.scan == Csi && b != ESC && b != QUESTION then t.(scan := Ground) else Lean(AltStep(t, b))
  }

  function LeanFold(t: Alternate, p: seq<byte>): Alternate
    decreases |p|
  {
    if p == [] then t else LeanFold(LeanStep(t, p[0]), p[1..])
  }

  /** Whether unrelated sequences are read to their end or not, the screen state is the same on every input. */
  lemma {:induction false} IgnoreStateIsInvisible(t: Alternate, p: seq<byte>)
    ensures LeanFold(Lean(t), p) == Lean(AltFold(t, p))
    ensures LeanFold(Lean(t), p).state == AltFold(t, p).state
    decreases |p|
  {
    if p == [] {
    } else {
      IgnoreStateIsInvisible(AltStep(t, p[0]), p[1..]);
    }
  }

  // The declared meaning of ESC [ ? p1 ; ... ; pk h and l.

  lemma {:induction false} AltDigits(t: Alternate, ds: seq<byte>)
    requires t.scan == Private && AllDigits(ds)
    ensures AltFold(t, ds) == t.(param := Parse(t.param, ds))
    decreases |ds|
  {
    if ds == [] {
    } else {
      AltDigits(AltStep(t, ds[0]), ds[1..]);
    }
  }

  ghost predicate NamesAlt(ps: seq<seq<byte>>)
    requires Decimal(ps)
  {
    exists k :: 0 <= k < |ps| && IsAltParam(Value(ps[k]))
  }

  lemma NamesAltCons(ps: seq<seq<byte>>)
    requires ps != [] && Decimal(ps)
    ensures NamesAlt(ps) <==> IsAltParam(Parse(0, ps[0])) || NamesAlt(ps[1..])
  {
    ParseValue(ps[0]);
    if NamesAlt(ps[1..]) {
      var k :| 0 <= k < |ps[1..]| && IsAltParam(Value(ps[1..][k]));
      assert IsAltParam(Value(ps[k + 1]));
    }
    if NamesAlt(ps) {
      var k :| 0 <= k < |ps| && IsAltParam(Value(ps[k]));
      if k > 0 {
        assert ps[1..][k - 1] == ps[k];
      }
    }
  }

  lemma {:induction false} AltParams(t: Alternate, ps: seq<seq<byte>>)
    requires t.scan == Private && !t.invalid && t.param == 0 && ps != [] && Decimal(ps)
    ensures var t' := AltFold(t, Join(ps));
            && t'.scan == Private && !t'.invalid && t'.state == t.state
            && (t'.hit || IsAltParam(t'.param) <==> t.hit || NamesAlt(ps))
    decreases |ps|
  {
    NamesAltCons(ps);
    AltDigits(t, ps[0]);
    hide NamesAlt, Parse;
    if |ps| == 1 {
      assert !NamesAlt(ps[1..]) by { NothingNamesAlt(ps[1..]); }
    } else {
      var rest := ps[1..];
      var t1 := t.(param := Parse(0, ps[0]));
      assert ps[0] + [SEMICOLON] + Join(rest) == ps[0] + ([SEMICOLON] + Join(rest));
      AltFoldConcat(t, ps[0], [SEMICOLON] + Join(rest));
      assert ([SEMICOLON] + Join(rest))[1..] == Join(rest);
      AltParams(AltStep(t1, SEMICOLON), rest);
    }
  }

  lemma NothingNamesAlt(ps: seq<seq<byte>>)
    requires ps == []
    ensures !NamesAlt(ps)
  {
  }

  /** A private sequence switches the screen exactly when one of its parameters is 47, 1047 or 1049. */
  lemma AltSequenceMeaning(t: Alternate, ps: seq<seq<byte>>, on: bool)
    requires t.scan == Ground && ps != [] && Decimal(ps)
    ensures AltFold(t, Sequence(ps, on)).scan == Ground
    ensures AltFold(t, Sequence(ps, on)).state ==
            if NamesAlt(ps) then (if on then Alt else Main) else t.state
  {
    hide Join, NamesAlt;
    var final := if on then SET else RESET;
    var t1 := t.(scan := Esc);
    var t2 := t.(scan := Csi);
    var t3 := t.(scan := Private, param := 0, hit := false, invalid := false);
    assert Sequence(ps, on) == [ESC] + ([BRACKET] + ([QUESTION] + (Join(ps) + [final])));
    AltFoldConcat(t, [ESC], [BRACKET] + ([QUESTION] + (Join(ps) + [final])));
    AltFoldConcat(t1, [BRACKET], [QUESTION] + (Join(ps) + [final]));
    AltFoldConcat(t2, [QUESTION], Join(ps) + [final]);
    AltParams(t3, ps);
    AltFoldConcat(t3, Join(ps), [final]);
  }

  // Soundness across gaps.

  /**
   `mine` may not know the screen, but if it says main or alt it agrees with
   `ideal`; it is in step with `ideal`, or it is looking for the next ESC.
   */
  predicate InStep(mine: Alternate, ideal: Alternate) {
    && (mine.state == Unknown || mine.state == ideal.state)
    && (|| (mine.state == Unknown && mine.scan == Ground)
        || (mine.scan == ideal.scan &&
            (mine.scan == Private ==>
               mine.param == ideal.param && mine.hit == ideal.hit && mine.invalid == ideal.invalid)))
  }

  /** Reading the same bytes keeps the two in step, whatever the gap left behind. */
  lemma {:induction false} InStepScan(mine: Alternate, ideal: Alternate, p: seq<byte>)
    requires InStep(mine, ideal)
    ensures InStep(AltFold(mine, p), AltFold(ideal, p))
    decreases |p|
  {
    if p == [] {
    } else {
      InStepScan(AltStep(mine, p[0]), AltStep(ideal, p[0]), p[1..]);
    }
  }

  /** After the first ESC the two scanners are at the same place. */
  lemma ResynchronisesAtEsc(mine: Alternate, ideal: Alternate, p: seq<byte>)
    requires InStep(mine, ideal) && ESC in p
    ensures AltFold(mine, p).scan == AltFold(ideal, p).scan
  {
    var k :| 0 <= k < |p| && p[k] == ESC;
    var q, r := p[..k], p[k + 1..];
    assert p == q + ([ESC] + r);
    AltFoldConcat(mine, q, [ESC] + r);
    AltFoldConcat(ideal, q, [ESC] + r);
    InStepScan(mine, ideal, q);
    SameScan(AltFold(mine, q).(scan := Esc), AltFold(ideal, q).(scan := Esc), r);
  }

  /** Two scanners at the same place stay at the same place. */
  lemma {:induction false} SameScan(a: Alternate, b: Alternate, p: seq<byte>)
    requires a.scan == b.scan
    ensures AltFold(a, p).scan == AltFold(b, p).scan
    decreases |p|
  {
    if p == [] {
    } else {
      SameScan(AltStep(a, p[0]), AltStep(b, p[0]), p[1..]);
    }
  }
}
