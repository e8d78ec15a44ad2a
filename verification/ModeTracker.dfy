/**
 The terminal-mode scanner (internal/termui/modes.go): it follows the private
 modes an application sets and prints the sequence that sets them again.
 */
module ModeTracker {
  import opened Bytes

  const ESC: byte := 0x1b
  const CAN: byte := 0x18
  const SUB: byte := 0x1a
  const BRACKET: byte := 0x5b
  const QUESTION: byte := 0x3f
  const SEMICOLON: byte := 0x3b
  const COLON: byte := 0x3a
  const SET: byte := 0x68
  const RESET: byte := 0x6c

  const MAX_PARAM: nat := 100000
  const MAX_PARAMS: nat := 16
  const MODES: nat := 13
  const KEYPAD: nat := 13

  /** Scanner position: text, after ESC, after ESC [, in ESC [ ? parameters, in an unrelated CSI. */
  datatype Scan = Ground | Esc | Csi | Private | Ignore

  /** A tracked private mode and its value in a freshly reset terminal. */
  datatype Mode = Mode(num: nat, def: bool)

  function Tracked(i: nat): Mode
    requires i < MODES
  {
    [Mode(47, false), Mode(1047, false), Mode(1049, false),
     Mode(1000, false), Mode(1002, false), Mode(1003, false),
     Mode(1005, false), Mode(1006, false), Mode(1015, false),
     Mode(1004, false), Mode(2004, false), Mode(1, false), Mode(25, true)][i]
  }

  /**
   `diff` holds the indices of the modes that differ from the reset value (the
   bits of the source's mask, KEYPAD after the table).
   */
  datatype State = State(diff: set<nat>, scan: Scan, params: seq<nat>, nparams: nat, invalid: bool)

  predicate Valid(t: State) {
    && |t.params| == MAX_PARAMS && t.nparams <= MAX_PARAMS
    && (t.scan == Private ==> 1 <= t.nparams)
    && (forall i :: i in t.diff ==> i <= KEYPAD)
    && t.scan != Ignore
  }

  function SetBit(diff: set<nat>, bit: nat, differs: bool): set<nat> {
    if differs then diff + {bit} else diff - {bit}
  }

  /** The table index of a mode number at or after i, or MODES. */
  function ModeIndex(num: nat, i: nat): (r: nat)
    requires i <= MODES
    ensures i <= r <= MODES
    ensures r < MODES ==> Tracked(r).num == num
    ensures forall j :: i <= j < r ==> Tracked(j).num != num
    decreases MODES - i
  {
    if i == MODES || Tracked(i).num == num then i else ModeIndex(num, i + 1)
  }

  function SetMode(diff: set<nat>, num: nat, on: bool): set<nat> {
    var i := ModeIndex(num, 0);
    if i == MODES then diff else SetBit(diff, i, on != Tracked(i).def)
  }

  function SetModes(diff: set<nat>, nums: seq<nat>, on: bool): set<nat>
    decreases |nums|
  {
    if nums == [] then diff else SetModes(SetMode(diff, nums[0], on), nums[1..], on)
  }

  predicate IsDigit(b: byte) { 0x30 <= b <= 0x39 }

  function AddDigit(p: nat, b: byte): nat
    requires IsDigit(b)
  {
    if p < MAX_PARAM then p * 10 + (b as nat - 0x30) else p
  }

  /** The scanner as a one-byte automaton. */
  function Step(t: State, b: byte): (t': State)
    requires Valid(t)
    ensures Valid(t')
  {
    if b == ESC then t.(scan := Esc)
    else if t.scan == Ground then t
    else if b == CAN || b == SUB then t.(scan := Ground)
    else
      match t.scan
      case Esc => StepEsc(t, b)
      case Csi =>
        if b == QUESTION then t.(scan := Private, params := t.params[0 := 0], nparams := 1, invalid := false)
        else t.(scan := Ground)
      case Private => StepPrivate(t, b)
  }

  function StepEsc(t: State, b: byte): (t': State)
    requires Valid(t)
    ensures Valid(t')
  {
    if b == BRACKET then t.(scan := Csi)
    else if b == 0x63 then t.(scan := Ground, diff := {})
    else if b == 0x3d then t.(scan := Ground, diff := SetBit(t.diff, KEYPAD, true))
    else if b == 0x3e then t.(scan := Ground, diff := SetBit(t.diff, KEYPAD, false))
    else t.(scan := Ground)
  }

  function StepPrivate(t: State, b: byte): (t': State)
    requires Valid(t) && t.scan == Private
    ensures Valid(t')
  {
    if IsDigit(b) then t.(params := t.params[t.nparams - 1 := AddDigit(t.params[t.nparams - 1], b)])
    else if b == SEMICOLON || b == COLON then
      if t.nparams < MAX_PARAMS then t.(params := t.params[t.nparams := 0], nparams := t.nparams + 1)
      else t.(params := t.params[t.nparams - 1 := 0])
    else if 0x20 <= b <= 0x2f then t.(invalid := true)
    else if 0x40 <= b <= 0x7e then
      if !t.invalid && (b == SET || b == RESET) then
        SetModesInRange(t.diff, t.params[..t.nparams], b == SET);
        t.(scan := Ground, diff := SetModes(t.diff, t.params[..t.nparams], b == SET))
      else t.(scan := Ground)
    else t
  }

  lemma SetModesInRange(diff: set<nat>, nums: seq<nat>, on: bool)
    requires forall i :: i in diff ==> i <= KEYPAD
    ensures forall i :: i in SetModes(diff, nums, on) ==> i <= KEYPAD
    decreases |nums|
  {
    if nums == [] {
    } else {
      SetModesInRange(SetMode(diff, nums[0], on), nums[1..], on);
    }
  }

  function Fold(t: State, p: seq<byte>): (t': State)
    requires Valid(t)
    ensures Valid(t')
    decreases |p|
  {
    if p == [] then t else Fold(Step(t, p[0]), p[1..])
  }

  const FRESH := State({}, Ground, [0, 0, 0, 0, 0, 0, 0, 0, 0, 0, 0, 0, 0, 0, 0, 0], 0, false)

  /** Chunk boundaries do not matter. */
  lemma {:induction false} FoldConcat(t: State, p: seq<byte>, q: seq<byte>)
    requires Valid(t)
    ensures Fold(t, p + q) == Fold(Fold(t, p), q)
    decreases |p|
  {
    if p == [] {
      assert p + q == q;
    } else {
      assert (p + q)[1..] == p[1..] + q;
      FoldConcat(Step(t, p[0]), p[1..], q);
    }
  }

  lemma {:induction false} GroundSkips(t: State, p: seq<byte>, k: nat)
    requires Valid(t) && t.scan == Ground && k <= |p|
    requires forall i :: 0 <= i < k ==> p[i] != ESC
    ensures Fold(t, p) == Fold(t, p[k..])
  {
    if k == 0 {
      assert p[k..] == p;
    } else {
      assert p[1..][k - 1..] == p[k..];
      GroundSkips(t, p[1..], k - 1);
    }
  }

  /** ESC [ and a byte that starts no private sequence leave no trace. */
  lemma CsiLeavesNoTrace(t: State, p: seq<byte>)
    requires Valid(t) && t.scan == Ground && |p| >= 3 && p[0] == ESC && p[1] == BRACKET
    requires p[2] != QUESTION && p[2] != ESC && p[2] != CAN && p[2] != SUB
    ensures Fold(t, p) == Fold(t, p[3..])
  {
    var t1 := t.(scan := Esc);
    var t2 := t.(scan := Csi);
    assert p[1..][1..] == p[2..] && p[2..][1..] == p[3..];
    assert Fold(t, p) == Fold(t1, p[1..]);
    assert Fold(t1, p[1..]) == Fold(t2, p[2..]);
    assert Fold(t2, p[2..]) == Fold(t, p[3..]);
  }

  // The same, at position i of a chunk.

  lemma SkipText(t: State, p: seq<byte>, i: nat, j: nat)
    requires Valid(t) && t.scan == Ground && i <= j <= |p| && forall k :: i <= k < j ==> p[k] != ESC
    ensures Fold(t, p[i..]) == Fold(t, p[j..])
  {
    GroundSkips(t, p[i..], j - i);
    assert p[i..][j - i..] == p[j..];
  }

  lemma SkipCsi(t: State, p: seq<byte>, i: nat)
    requires Valid(t) && t.scan == Ground && i + 2 < |p| && p[i] == ESC && p[i + 1] == BRACKET
    requires p[i + 2] != QUESTION && p[i + 2] != ESC && p[i + 2] != CAN && p[i + 2] != SUB
    ensures Fold(t, p[i..]) == Fold(t, p[i + 3..])
  {
    CsiLeavesNoTrace(t, p[i..]);
    assert p[i..][3..] == p[i + 3..];
  }

  lemma TakeByte(t: State, p: seq<byte>, i: nat)
    requires Valid(t) && i < |p|
    ensures Fold(t, p[i..]) == Fold(Step(t, p[i]), p[i + 1..])
  {
    hide Step;
    assert p[i..][1..] == p[i + 1..];
  }

  lemma NothingLeft(p: seq<byte>)
    ensures p[|p|..] == [] && forall t :: Valid(t) ==> Fold(t, p[|p|..]) == t
  {
  }

  lemma EscStarts(t: State)
    requires Valid(t)
    ensures Step(t, ESC) == t.(scan := Esc)
  {
  }

  /** bytes.IndexByte. */
  method IndexByte(p: seq<byte>, start: nat, b: byte) returns (k: int)
    requires start <= |p|
    ensures k < 0 ==> forall i :: start <= i < |p| ==> p[i] != b
    ensures k >= 0 ==> start <= k < |p| && p[k] == b && forall i :: start <= i < k ==> p[i] != b
  {
    for i := start to |p|
      invariant forall j :: start <= j < i ==> p[j] != b
    {
      if p[i] == b {
        return i;
      }
    }
    k := -1;
  }

  class Tracker {
    var diff: set<nat>
    var scan: Scan
    var params: seq<nat>
    var nparams: nat
    var invalid: bool

    constructor ()
      ensures View() == FRESH
    {
      diff, scan, nparams, invalid := {}, Ground, 0, false;
      params := [0, 0, 0, 0, 0, 0, 0, 0, 0, 0, 0, 0, 0, 0, 0, 0];
    }

    function View(): State
      reads this
    {
      State(diff, scan, params, nparams, invalid)
    }

    method SetModeBit(num: nat, on: bool)
      modifies this
      ensures View() == old(View()).(diff := SetMode(old(diff), num, on))
    {
      for i := 0 to MODES
        invariant View() == old(View())
        invariant forall j :: 0 <= j < i ==> Tracked(j).num != num
      {
        if Tracked(i).num == num {
          assert ModeIndex(num, 0) == i;
          diff := if on != Tracked(i).def then diff + {i} else diff - {i};
          return;
        }
      }
    }

    /** The final byte of DECSET or DECRST: apply it to every parameter collected. */
    method ApplyParams(on: bool)
      requires nparams <= |params|
      modifies this
      ensures View() == old(View()).(diff := SetModes(old(diff), old(params[..nparams]), on))
    {
      ghost var start, nums := View(), params[..nparams];
      var i := 0;
      while i < nparams
        invariant 0 <= i <= nparams == start.nparams
        invariant View() == start.(diff := diff)
        invariant SetModes(diff, nums[i..], on) == SetModes(start.diff, nums, on)
      {
        assert nums[i..][1..] == nums[i + 1..];
        SetModeBit(params[i], on);
        i := i + 1;
      }
    }

    /** One byte inside an escape sequence. */
    method ScanByte(b: byte)
      requires Valid(View()) && scan != Ground
      modifies this
      ensures View() == Step(old(View()), b)
    {
      if b == ESC {
        scan := Esc;
        return;
      }
      if b == CAN || b == SUB {
        scan := Ground;
        return;
      }
      match scan {
        case Esc =>
          scan := Ground;
          if b == BRACKET {
            scan := Csi;
          } else if b == 0x63 {
            diff := {};
          } else if b == 0x3d {
            diff := diff + {KEYPAD};
          } else if b == 0x3e {
            diff := diff - {KEYPAD};
          }
        case Csi =>
          if b == QUESTION {
            scan, params, nparams, invalid := Private, params[0 := 0], 1, false;
          } else {
            scan := Ground;
          }
        case Private =>
          if IsDigit(b) {
            if params[nparams - 1] < MAX_PARAM {
              params := params[nparams - 1 := params[nparams - 1] * 10 + (b as nat - 0x30)];
            }
          } else if b == SEMICOLON || b == COLON {
            if nparams < MAX_PARAMS {
              params := params[nparams := 0];
              nparams := nparams + 1;
            } else {
              params := params[nparams - 1 := 0];
            }
          } else if 0x20 <= b <= 0x2f {
            invalid := true;
          } else if 0x40 <= b <= 0x7e {
            if !invalid && (b == SET || b == RESET) {
              ApplyParams(b == SET);
            }
            scan := Ground;
          }
      }
    }

    /** Scan: text is skipped up to the next ESC, and most CSI sequences without entering the automaton. */
    method Scan(p: seq<byte>)
      requires Valid(View())
      modifies this
      ensures View() == Fold(old(View()), p)
    {
      hide Step, Fold;
      ghost var want := Fold(View(), p);
      var i := 0;
      assert p[0..] == p;
      NothingLeft(p);
      while i < |p|
        invariant 0 <= i <= |p| && Valid(View()) && Fold(View(), p[i..]) == want
      {
        if scan == Ground {
          var j := IndexByte(p, i, ESC);
          if j < 0 {
            SkipText(View(), p, i, |p|);
            return;
          }
          SkipText(View(), p, i, j);
          i := j;
          if i + 2 < |p| && p[i + 1] == BRACKET && p[i + 2] != QUESTION && p[i + 2] != ESC && p[i + 2] != CAN && p[i + 2] != SUB {
            SkipCsi(View(), p, i);
            i := i + 3;
          } else {
            TakeByte(View(), p, i);
            EscStarts(View());
            scan := Esc;
            i := i + 1;
          }
        } else {
          TakeByte(View(), p, i);
          ScanByte(p[i]);
          i := i + 1;
        }
      }
    }

    /** Restore: the sequence that brings a reset terminal to the tracked modes. */
    method Restore() returns (b: seq<byte>)
      ensures b == RestoreBytes(diff)
    {
      hide Itoa, Tracked;
      b := [];
      for i := 0 to MODES
        invariant b == RestoreFirst(diff, i)
      {
        if i in diff {
          b := b + [ESC, BRACKET, QUESTION] + Itoa(Tracked(i).num) + [if Tracked(i).def then RESET else SET];
        }
      }
      if KEYPAD in diff {
        b := b + [ESC, 0x3d];
      }
    }
  }

  /** strconv.Itoa for the mode numbers. */
  function Itoa(n: nat): (ds: seq<byte>)
    ensures forall i :: 0 <= i < |ds| ==> IsDigit(ds[i])
  {
    if n < 10 then [(n + 0x30) as byte] else Itoa(n / 10) + [(n % 10 + 0x30) as byte]
  }

  function SetSequence(i: nat): seq<byte>
    requires i < MODES
  {
    [ESC, BRACKET, QUESTION] + Itoa(Tracked(i).num) + [if Tracked(i).def then RESET else SET]
  }

  function RestoreFirst(diff: set<nat>, k: nat): seq<byte>
    requires k <= MODES
  {
    if k == 0 then []
    else RestoreFirst(diff, k - 1) + if k - 1 in diff then SetSequence(k - 1) else []
  }

  function RestoreBytes(diff: set<nat>): seq<byte> {
    RestoreFirst(diff, MODES) + if KEYPAD in diff then [ESC, 0x3d] else []
  }

  // The declared meaning of ESC [ ? p1 ; ... ; pk h and l.

  predicate AllDigits(ds: seq<byte>) { forall i :: 0 <= i < |ds| ==> IsDigit(ds[i]) }

  /** The number a string of decimal digits denotes; an empty parameter is zero. */
  function Value(ds: seq<byte>): nat
    requires AllDigits(ds)
  {
    if ds == [] then 0 else Value(ds[..|ds| - 1]) * 10 + (ds[|ds| - 1] as nat - 0x30)
  }

  function Parse(acc: nat, ds: seq<byte>): nat
    requires AllDigits(ds)
    decreases |ds|
  {
    if ds == [] then acc else Parse(AddDigit(acc, ds[0]), ds[1..])
  }

  lemma {:induction false} ParseSnoc(acc: nat, ds: seq<byte>, d: byte)
    requires AllDigits(ds) && IsDigit(d)
    ensures AllDigits(ds + [d]) && Parse(acc, ds + [d]) == AddDigit(Parse(acc, ds), d)
    decreases |ds|
  {
    if ds == [] {
      assert ds + [d] == [d];
      assert Parse(acc, [d]) == Parse(AddDigit(acc, d), []);
    } else {
      assert (ds + [d])[1..] == ds[1..] + [d];
      ParseSnoc(AddDigit(acc, ds[0]), ds[1..], d);
    }
  }

  /** Saturation never changes which mode number is meant. */
  lemma {:induction false} ParseValue(ds: seq<byte>)
    requires AllDigits(ds)
    ensures Value(ds) < MAX_PARAM ==> Parse(0, ds) == Value(ds)
    ensures Value(ds) >= MAX_PARAM ==> Parse(0, ds) >= MAX_PARAM
  {
    if ds == [] {
    } else {
      var init, d := ds[..|ds| - 1], ds[|ds| - 1];
      ParseValue(init);
      ParseSnoc(0, init, d);
      assert init + [d] == ds;
    }
  }

  /** Parameters joined by semicolons. */
  function Join(ps: seq<seq<byte>>): seq<byte>
    requires ps != []
  {
    if |ps| == 1 then ps[0] else ps[0] + [SEMICOLON] + Join(ps[1..])
  }

  ghost predicate Decimal(ps: seq<seq<byte>>) {
    forall k :: 0 <= k < |ps| ==> AllDigits(ps[k])
  }

  function Parses(ps: seq<seq<byte>>): (r: seq<nat>)
    requires forall k :: 0 <= k < |ps| ==> AllDigits(ps[k])
    ensures |r| == |ps|
  {
    if ps == [] then [] else [Parse(0, ps[0])] + Parses(ps[1..])
  }

  lemma {:induction false} FoldDigits(t: State, ds: seq<byte>)
    requires Valid(t) && t.scan == Private && AllDigits(ds)
    ensures Fold(t, ds) == t.(params := t.params[t.nparams - 1 := Parse(t.params[t.nparams - 1], ds)])
    decreases |ds|
  {
    if ds == [] {
      assert t.params[t.nparams - 1 := t.params[t.nparams - 1]] == t.params;
    } else {
      var t1 := Step(t, ds[0]);
      assert t1 == t.(params := t.params[t.nparams - 1 := AddDigit(t.params[t.nparams - 1], ds[0])]);
      FoldDigits(t1, ds[1..]);
    }
  }

  /** Scanning k joined parameters fills the next k slots. */
  lemma {:induction false} FoldParams(t: State, ps: seq<seq<byte>>)
    requires Valid(t) && t.scan == Private && !t.invalid && t.params[t.nparams - 1] == 0
    requires ps != [] && Decimal(ps) && t.nparams + |ps| - 1 <= MAX_PARAMS
    ensures var t' := Fold(t, Join(ps));
            && t'.scan == Private && !t'.invalid && t'.diff == t.diff && t'.nparams == t.nparams + |ps| - 1
            && t'.params[..t'.nparams] == t.params[..t.nparams - 1] + Parses(ps)
    decreases |ps|
  {
    hide Step, Parse, Fold, Join;
    var v, rest := Parse(0, ps[0]), ps[1..];
    var t1 := t.(params := t.params[t.nparams - 1 := v]);
    FoldDigits(t, ps[0]);
    JoinStep(ps);
    FirstSlot(t.params, t.nparams, v);
    if |ps| == 1 {
      assert Parses(rest) == [];
      assert Parses(ps) == [v] + Parses(rest);
    } else {
      FoldConcat(t, ps[0], [SEMICOLON] + Join(rest));
      FoldConcat(t1, [SEMICOLON], Join(rest));
      FoldSemicolon(t1);
      var t2 := t1.(params := t1.params[t1.nparams := 0], nparams := t1.nparams + 1);
      FoldParams(t2, rest);
      assert t2.params[..t2.nparams - 1] == t1.params[..t.nparams];
      assert (t.params[..t.nparams - 1] + [v]) + Parses(rest) == t.params[..t.nparams - 1] + ([v] + Parses(rest));
    }
  }

  lemma FirstSlot(params: seq<nat>, n: nat, v: nat)
    requires 1 <= n <= |params|
    ensures params[n - 1 := v][..n] == params[..n - 1] + [v]
  {
  }

  lemma JoinStep(ps: seq<seq<byte>>)
    requires ps != []
    ensures |ps| == 1 ==> Join(ps) == ps[0]
    ensures |ps| > 1 ==> Join(ps) == ps[0] + ([SEMICOLON] + Join(ps[1..]))
  {
  }

  lemma FoldSemicolon(t: State)
    requires Valid(t) && t.scan == Private && t.nparams < MAX_PARAMS
    ensures Fold(t, [SEMICOLON]) == t.(params := t.params[t.nparams := 0], nparams := t.nparams + 1)
  {
    assert Fold(t, [SEMICOLON]) == Fold(Step(t, SEMICOLON), []);
  }

  lemma FoldIntroducer(t: State)
    requires Valid(t) && t.scan == Ground
    ensures Fold(t, [ESC, BRACKET, QUESTION])
         == t.(scan := Private, params := t.params[0 := 0], nparams := 1, invalid := false)
  {
    var t1, t2 := Step(t, ESC), Step(Step(t, ESC), BRACKET);
    assert Fold(t, [ESC, BRACKET, QUESTION]) == Fold(t1, [BRACKET, QUESTION]);
    assert Fold(t1, [BRACKET, QUESTION]) == Fold(t2, [QUESTION]);
    assert Fold(t2, [QUESTION]) == Fold(Step(t2, QUESTION), []);
  }

  function Sequence(ps: seq<seq<byte>>, on: bool): seq<byte>
    requires ps != []
  {
    [ESC, BRACKET, QUESTION] + Join(ps) + [if on then SET else RESET]
  }

  lemma FoldSequence(t: State, ps: seq<seq<byte>>, on: bool)
    requires Valid(t) && t.scan == Ground && ps != [] && Decimal(ps) && |ps| <= MAX_PARAMS
    ensures var t' := Fold(t, Sequence(ps, on));
            t'.scan == Ground && t'.diff == SetModes(t.diff, Parses(ps), on)
  {
    hide Parses, Join, SetModes;
    var intro, final := [ESC, BRACKET, QUESTION], [if on then SET else RESET];
    FoldConcat(t, intro + Join(ps), final);
    FoldConcat(t, intro, Join(ps));
    FoldIntroducer(t);
    var t1 := Fold(t, intro);
    FoldParams(t1, ps);
    var t2 := Fold(t1, Join(ps));
    assert t1.params[..0] + Parses(ps) == Parses(ps);
    assert Fold(t2, final) == Fold(Step(t2, final[0]), []);
  }

  lemma DistinctModes(i: nat, num: nat)
    requires i < MODES && Tracked(i).num == num
    ensures ModeIndex(num, 0) == i
  {
    assert forall j :: 0 <= j < i ==> Tracked(j).num != num;
  }

  /** Mode i ends up as the sequence says if it is listed, and is untouched otherwise. */
  lemma {:induction false} SetModesMeaning(diff: set<nat>, nums: seq<nat>, on: bool, i: nat)
    requires i <= KEYPAD
    ensures i in SetModes(diff, nums, on) <==>
            if i < MODES && Tracked(i).num in nums then on != Tracked(i).def else i in diff
    decreases |nums|
  {
    if nums == [] {
    } else {
      SetModesMeaning(SetMode(diff, nums[0], on), nums[1..], on, i);
      if i < MODES && Tracked(i).num == nums[0] {
        DistinctModes(i, nums[0]);
      }
      hide SetModes, Tracked;
      assert nums == [nums[0]] + nums[1..];
    }
  }

  lemma {:induction false} ParsesMeaning(ps: seq<seq<byte>>, num: nat)
    requires Decimal(ps) && num < MAX_PARAM
    ensures num in Parses(ps) <==> exists k :: 0 <= k < |ps| && Value(ps[k]) == num
    decreases |ps|
  {
    if ps == [] {
    } else {
      ParseValue(ps[0]);
      ParsesMeaning(ps[1..], num);
      if num in Parses(ps[1..]) {
        var k :| 0 <= k < |ps[1..]| && Value(ps[1..][k]) == num;
        assert Value(ps[k + 1]) == num;
      }
    }
  }

  /**
   A well-formed private sequence of at most 16 decimal parameters sets or
   resets exactly the tracked modes it lists, and the scanner is back in text.
   */
  lemma SequenceMeaning(t: State, ps: seq<seq<byte>>, on: bool, i: nat)
    requires Valid(t) && t.scan == Ground && ps != [] && Decimal(ps) && |ps| <= MAX_PARAMS && i <= KEYPAD
    ensures Fold(t, Sequence(ps, on)).scan == Ground
    ensures i in Fold(t, Sequence(ps, on)).diff <==>
            if i < MODES && exists k :: 0 <= k < |ps| && Value(ps[k]) == Tracked(i).num
            then on != Tracked(i).def
            else i in t.diff
  {
    FoldSequence(t, ps, on);
    SetModesMeaning(t.diff, Parses(ps), on, i);
    if i < MODES {
      ParsesMeaning(ps, Tracked(i).num);
    }
  }

  // The printer.

  lemma {:induction false} ItoaValue(n: nat)
    ensures AllDigits(Itoa(n)) && Value(Itoa(n)) == n
  {
    if n >= 10 {
      ItoaValue(n / 10);
      var ds := Itoa(n);
      assert ds[..|ds| - 1] == Itoa(n / 10);
    } else {
      assert Value([]) == 0;
    }
  }

  lemma SetSequenceSets(t: State, i: nat)
    requires Valid(t) && t.scan == Ground && i < MODES
    ensures Fold(t, SetSequence(i)).scan == Ground && Fold(t, SetSequence(i)).diff == t.diff + {i}
  {
    var num, on := Tracked(i).num, !Tracked(i).def;
    var ps := [Itoa(num)];
    ItoaValue(num);
    assert SetSequence(i) == Sequence(ps, on);
    FoldSequence(t, ps, on);
    ParseValue(Itoa(num));
    assert Parses(ps) == [Parse(0, Itoa(num))] + Parses([]) == [num];
    DistinctModes(i, num);
    assert SetModes(t.diff, [num], on) == SetModes(SetMode(t.diff, num, on), [], on);
  }

  lemma {:induction false} RestoreFirstSets(diff: set<nat>, k: nat)
    requires k <= MODES
    ensures var t := Fold(FRESH, RestoreFirst(diff, k));
            t.scan == Ground && t.diff == set i | i in diff && i < k
  {
    hide SetSequence, Step;
    if k == 0 {
    } else {
      RestoreFirstSets(diff, k - 1);
      var t := Fold(FRESH, RestoreFirst(diff, k - 1));
      if k - 1 in diff {
        FoldConcat(FRESH, RestoreFirst(diff, k - 1), SetSequence(k - 1));
        SetSequenceSets(t, k - 1);
      } else {
        assert RestoreFirst(diff, k - 1) + [] == RestoreFirst(diff, k - 1);
      }
    }
  }

  /** Scanning what Restore prints, in a fresh tracker, reproduces the tracked modes. */
  lemma RestoreRoundTrip(t: State)
    requires Valid(t)
    ensures Fold(FRESH, RestoreBytes(t.diff)).diff == t.diff
    ensures Fold(FRESH, RestoreBytes(t.diff)).scan == Ground
  {
    RestoreFirstSets(t.diff, MODES);
    hide RestoreFirst;
    var first := RestoreFirst(t.diff, MODES);
    var t1 := Fold(FRESH, first);
    if KEYPAD in t.diff {
      FoldConcat(FRESH, first, [ESC, 0x3d]);
      assert Fold(t1, [ESC, 0x3d]) == Fold(Step(t1, ESC), [0x3d]);
      assert Fold(Step(t1, ESC), [0x3d]) == Fold(Step(Step(t1, ESC), 0x3d), []);
    } else {
      assert first + [] == first;
    }
  }

  // The early return to text is invisible.

  /** A scanner that reads unrelated CSI sequences to their final byte. */
  function PatientStep(t: State, b: byte): State
    requires Valid(t.(scan := if t.scan == Ignore then Ground else t.scan))
  {
    if t.scan == Ignore then
      if b == ESC then t.(scan := Esc)
      else if b == CAN || b == SUB || 0x40 <= b <= 0x7e then t.(scan := Ground)
      else t
    else if t.scan == Csi && b != ESC && b != CAN && b != SUB && b != QUESTION && !(0x40 <= b <= 0x7e)
    then t.(scan := Ignore)
    else Step(t, b)
  }

  function Hasty(t: State): State { t.(scan := if t.scan == Ignore then Ground else t.scan) }

  function PatientFold(t: State, p: seq<byte>): (t': State)
    requires Valid(Hasty(t))
    ensures Valid(Hasty(t'))
    decreases |p|
  {
    if p == [] then t else PatientFold(PatientStep(t, p[0]), p[1..])
  }

  /** Reading every CSI sequence to its end would track the same modes on every input. */
  lemma {:induction false} CsiSkipIsInvisible(t: State, p: seq<byte>)
    requires Valid(Hasty(t))
    ensures Hasty(PatientFold(t, p)) == Fold(Hasty(t), p)
    ensures PatientFold(t, p).diff == Fold(Hasty(t), p).diff
    decreases |p|
  {
    if p == [] {
    } else {
      CsiSkipIsInvisible(PatientStep(t, p[0]), p[1..]);
    }
  }
}
