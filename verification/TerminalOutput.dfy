/**
 What whole terminal output means to the two scanners. Output is split into
 text, escape sequences and sequences cut off by the next ESC, after section 5.4
 of ECMA-48; every output splits this way. A mode, or the screen, is what the
 last piece of output that speaks of it says.
 */
module TerminalOutput {
  import opened Bytes
  import opened ModeTracker
  import opened AltScreen

  /** ESC b; ESC [ b; ESC [ ? body end; and a sequence that the ESC of the next piece cuts off. */
  datatype Token =
    | Text(b: byte)
    | Simple(b: byte)
    | OtherCsi(b: byte)
    | PrivateCsi(body: seq<byte>, end: byte)
    | Cut(start: seq<byte>)

  /** A private sequence ends at a final byte or is aborted by CAN or SUB. */
  predicate Ends(b: byte) { b == CAN || b == SUB || 0x40 <= b <= 0x7e }

  predicate Body(body: seq<byte>) { forall i :: 0 <= i < |body| ==> body[i] != ESC && !Ends(body[i]) }

  predicate TokenOk(k: Token) {
    match k
    case Text(b) => b != ESC
    case Simple(b) => b != ESC && b != BRACKET
    case OtherCsi(b) => b != ESC && b != QUESTION
    case PrivateCsi(body, end) => Body(body) && Ends(end)
    case Cut(bytes) =>
      bytes == [ESC] || bytes == [ESC, BRACKET] ||
      (|bytes| >= 3 && bytes[..3] == [ESC, BRACKET, QUESTION] && Body(bytes[3..]))
  }

  function Encoding(k: Token): (p: seq<byte>) {
    match k
    case Text(b) => [b]
    case Simple(b) => [ESC, b]
    case OtherCsi(b) => [ESC, BRACKET, b]
    case PrivateCsi(body, end) => [ESC, BRACKET, QUESTION] + body + [end]
    case Cut(bytes) => bytes
  }

  function Output(ks: seq<Token>): seq<byte> {
    if ks == [] then [] else Output(ks[..|ks| - 1]) + Encoding(ks[|ks| - 1])
  }

  /** A sequence that is cut off is followed by an ESC, or ends the output. */
  predicate Splits(ks: seq<Token>) {
    && (forall i :: 0 <= i < |ks| ==> TokenOk(ks[i]))
    && (forall i :: 0 < i < |ks| && ks[i - 1].Cut? ==> !ks[i].Text?)
  }

  // Parameters.

  predicate Separator(b: byte) { b == SEMICOLON || b == COLON }

  predicate Intermediate(b: byte) { 0x20 <= b <= 0x2f }

  predicate DigitFields(fs: seq<seq<byte>>) { forall k :: 0 <= k < |fs| ==> AllDigits(fs[k]) }

  /** The digits between the separators of a parameter string; other bytes do not count. */
  function Fields(body: seq<byte>): (fs: seq<seq<byte>>)
    ensures fs != [] && DigitFields(fs)
  {
    if body == [] then [[]]
    else
      var fs, b := Fields(body[..|body| - 1]), body[|body| - 1];
      if IsDigit(b) then fs[|fs| - 1 := fs[|fs| - 1] + [b]]
      else if Separator(b) then fs + [[]]
      else fs
  }

  /** The tracker has sixteen slots; the last one holds the last parameter. */
  function Slots(fs: seq<seq<byte>>): (r: seq<seq<byte>>)
    requires fs != [] && DigitFields(fs)
    ensures DigitFields(r) && 1 <= |r| <= MAX_PARAMS
  {
    if |fs| <= MAX_PARAMS then fs else fs[..MAX_PARAMS - 1] + [fs[|fs| - 1]]
  }

  ghost predicate Lists(fs: seq<seq<byte>>, num: nat)
    requires DigitFields(fs)
  {
    exists k :: 0 <= k < |fs| && Value(fs[k]) == num
  }

  predicate Plain(body: seq<byte>) { forall i :: 0 <= i < |body| ==> !Intermediate(body[i]) }

  // Meaning.

  /** What a piece of output says about mode i: whether it then differs from its reset value. */
  ghost function Says(k: Token, i: nat): Option<bool> {
    match k
    case Simple(b) =>
      if b == 0x63 then Some(false)
      else if b == 0x3d && i == KEYPAD then Some(true)
      else if b == 0x3e && i == KEYPAD then Some(false)
      else None
    case PrivateCsi(body, end) =>
      if i < MODES && Plain(body) && Lists(Slots(Fields(body)), Tracked(i).num) && end == 0x68 then Some(!Tracked(i).def)
      else if i < MODES && Plain(body) && Lists(Slots(Fields(body)), Tracked(i).num) && end == 0x6c then Some(Tracked(i).def)
      else None
    case _ => None
  }

  ghost function LastSaid(ks: seq<Token>, i: nat, before: bool): bool {
    if ks == [] then before
    else
      var said := Says(ks[|ks| - 1], i);
      if said.Some? then said.value else LastSaid(ks[..|ks| - 1], i, before)
  }

  /** What a piece of output says about the screen. */
  ghost function SaysScreen(k: Token): Option<Screen> {
    match k
    case Simple(b) => if b == 0x63 then Some(Main) else None
    case PrivateCsi(body, end) =>
      var names := Lists(Fields(body), 47) || Lists(Fields(body), 1047) || Lists(Fields(body), 1049);
      if Plain(body) && names && end == 0x68 then Some(Alt)
      else if Plain(body) && names && end == 0x6c then Some(Main)
      else None
    case _ => None
  }

  ghost function LastScreen(ks: seq<Token>, before: Screen): Screen {
    if ks == [] then before
    else
      var said := SaysScreen(ks[|ks| - 1]);
      if said.Some? then said.value else LastScreen(ks[..|ks| - 1], before)
  }

  // Every output splits.

  lemma OutputCons(k: Token, ks: seq<Token>)
    ensures Output([k] + ks) == Encoding(k) + Output(ks)
    decreases |ks|
  {
    var all := [k] + ks;
    if ks == [] {
      assert all == [k] && all[..0] == [];
      assert Output(all) == Output([]) + Encoding(k);
      assert Encoding(k) + [] == [] + Encoding(k);
    } else {
      assert all[..|all| - 1] == [k] + ks[..|ks| - 1];
      OutputCons(k, ks[..|ks| - 1]);
      var a, b, z := Encoding(k), Output(ks[..|ks| - 1]), Encoding(ks[|ks| - 1]);
      assert (a + b) + z == a + (b + z);
    }
  }

  lemma {:induction false} EndOfBody(p: seq<byte>, i: nat) returns (j: nat)
    requires i <= |p|
    ensures i <= j <= |p| && Body(p[i..j]) && (j < |p| ==> p[j] == ESC || Ends(p[j]))
    decreases |p| - i
  {
    if i == |p| || p[i] == ESC || Ends(p[i]) {
      j := i;
    } else {
      j := EndOfBody(p, i + 1);
      assert p[i..j] == [p[i]] + p[i + 1..j];
    }
  }

  lemma SplitsCons(k: Token, ks: seq<Token>, rest: seq<byte>)
    requires TokenOk(k) && Splits(ks) && Output(ks) == rest
    requires k.Cut? ==> rest == [] || rest[0] == ESC
    ensures Splits([k] + ks) && Output([k] + ks) == Encoding(k) + rest
  {
    if ks != [] {
      FirstByte(ks);
    }
    OutputCons(k, ks);
    hide TokenOk, Encoding, Output;
  }

  lemma FirstByteOf(k: Token)
    requires TokenOk(k)
    ensures Encoding(k) != [] && (k.Text? <==> Encoding(k)[0] != ESC)
  {
  }

  lemma FirstByte(ks: seq<Token>)
    requires Splits(ks) && ks != []
    ensures Output(ks) != [] && (ks[0].Text? <==> Output(ks)[0] != ESC)
  {
    FirstByteOf(ks[0]);
    hide TokenOk, Encoding, Output;
    OutputCons(ks[0], ks[1..]);
    assert [ks[0]] + ks[1..] == ks;
  }

  /** The first piece of an output. */
  lemma FirstToken(p: seq<byte>) returns (k: Token, n: nat)
    requires p != []
    ensures 0 < n <= |p| && TokenOk(k) && Encoding(k) == p[..n]
    ensures k.Cut? ==> n == |p| || p[n] == ESC
  {
    if p[0] != ESC {
      k, n := Text(p[0]), 1;
    } else if |p| == 1 || p[1] == ESC {
      k, n := Cut([ESC]), 1;
    } else if p[1] != BRACKET {
      k, n := Simple(p[1]), 2;
    } else if |p| == 2 || p[2] == ESC {
      k, n := Cut([ESC, BRACKET]), 2;
    } else if p[2] != QUESTION {
      k, n := OtherCsi(p[2]), 3;
    } else {
      var j := EndOfBody(p, 3);
      assert p[..3] == [ESC, BRACKET, QUESTION];
      if j < |p| && p[j] != ESC {
        k, n := PrivateCsi(p[3..j], p[j]), j + 1;
        assert p[..n] == p[..3] + p[3..j] + [p[j]];
      } else {
        k, n := Cut(p[..j]), j;
        assert p[..j][..3] == p[..3] && p[..j][3..] == p[3..j];
      }
    }
  }

  /** Every output is a sequence of such pieces. */
  lemma {:induction false} EveryOutputSplits(p: seq<byte>) returns (ks: seq<Token>)
    ensures Splits(ks) && Output(ks) == p
    decreases |p|
  {
    if p == [] {
      ks := [];
    } else {
      var k, n := FirstToken(p);
      hide TokenOk, Encoding;
      var later := EveryOutputSplits(p[n..]);
      assert p == p[..n] + p[n..];
      SplitsCons(k, later, p[n..]);
      ks := [k] + later;
    }
  }

  // The mode scanner.

  function Numbers(fs: seq<seq<byte>>): (r: seq<nat>)
    requires DigitFields(fs)
    ensures |r| == |fs| && forall k :: 0 <= k < |fs| ==> r[k] == Parse(0, fs[k])
  {
    seq(|fs|, k requires 0 <= k < |fs| => Parse(0, fs[k]))
  }

  /** The scanner inside a private sequence whose body so far is `body`. */
  ghost predicate Inside(t: State, diff: set<nat>, body: seq<byte>) {
    && Valid(t) && t.scan == Private && t.diff == diff
    && t.nparams == |Slots(Fields(body))|
    && t.params[..t.nparams] == Numbers(Slots(Fields(body)))
    && (t.invalid <==> !Plain(body))
  }

  lemma FoldOne(t: State, b: byte)
    requires Valid(t)
    ensures Fold(t, [b]) == Step(t, b)
  {
    assert Fold(t, [b]) == Fold(Step(t, b), [][..]);
  }

  lemma FoldSnoc(t: State, p: seq<byte>, b: byte)
    requires Valid(t)
    ensures Fold(t, p + [b]) == Step(Fold(t, p), b)
  {
    FoldConcat(t, p, [b]);
    FoldOne(Fold(t, p), b);
  }

  lemma NumbersUpdate(fs: seq<seq<byte>>, b: byte)
    requires fs != [] && DigitFields(fs) && IsDigit(b)
    ensures var n := |fs| - 1;
            && DigitFields(fs[n := fs[n] + [b]])
            && Numbers(fs[n := fs[n] + [b]]) == Numbers(fs)[n := AddDigit(Numbers(fs)[n], b)]
  {
    ParseSnoc(0, fs[|fs| - 1], b);
  }

  /** One more byte of a parameter string, on the slots. */
  lemma SlotsStep(fs: seq<seq<byte>>, b: byte)
    requires fs != [] && DigitFields(fs)
    ensures var r, n := Slots(fs), |Slots(fs)| - 1;
            && r[n] == fs[|fs| - 1]
            && (IsDigit(b) ==> Slots(fs[|fs| - 1 := fs[|fs| - 1] + [b]]) == r[n := r[n] + [b]])
            && Slots(fs + [[]]) == if |fs| < MAX_PARAMS then r + [[]] else r[n := []]
  {
  }

  lemma DigitInside(t: State, diff: set<nat>, body: seq<byte>, b: byte)
    requires Inside(t, diff, body) && IsDigit(b)
    ensures Inside(Step(t, b), diff, body + [b])
  {
    hide Fields, Slots, Numbers, Plain, AddDigit, Step;
    BodySnoc(body, b);
    var fs, n := Fields(body), t.nparams;
    SlotsStep(fs, b);
    NumbersUpdate(Slots(fs), b);
    DigitStep(t, b);
    assert t.params[..n][n - 1] == t.params[n - 1];
    UpdateLast(t.params, n, AddDigit(t.params[n - 1], b));
  }

  lemma DigitStep(t: State, b: byte)
    requires Valid(t) && t.scan == Private && IsDigit(b)
    ensures Step(t, b) == t.(params := t.params[t.nparams - 1 := AddDigit(t.params[t.nparams - 1], b)])
  {
    hide AddDigit;
  }

  lemma UpdateLast(params: seq<nat>, n: nat, v: nat)
    requires 1 <= n <= |params|
    ensures params[n - 1 := v][..n] == params[..n][n - 1 := v]
  {
  }

  lemma BodySnoc(body: seq<byte>, b: byte)
    ensures var fs := Fields(body);
            Fields(body + [b]) == if IsDigit(b) then fs[|fs| - 1 := fs[|fs| - 1] + [b]]
                                  else if Separator(b) then fs + [[]] else fs
    ensures Plain(body + [b]) <==> Plain(body) && !Intermediate(b)
  {
    assert (body + [b])[..|body|] == body;
    assert forall i :: 0 <= i < |body| ==> (body + [b])[i] == body[i];
    assert (body + [b])[|body|] == b;
  }

  lemma SeparatorInside(t: State, diff: set<nat>, body: seq<byte>, b: byte)
    requires Inside(t, diff, body) && Separator(b)
    ensures Inside(Step(t, b), diff, body + [b])
  {
    hide Fields, Slots, Numbers, Plain, Step;
    BodySnoc(body, b);
    var fs, n := Fields(body), t.nparams;
    SlotsStep(fs, b);
    NewSlot(fs);
    SlotCount(fs);
    SeparatorStep(t, b);
    if n < MAX_PARAMS {
      ExtendSlots(t.params, n);
    } else {
      UpdateLast(t.params, n, 0);
    }
  }

  lemma SeparatorStep(t: State, b: byte)
    requires Valid(t) && t.scan == Private && Separator(b)
    ensures Step(t, b) ==
            if t.nparams < MAX_PARAMS then t.(params := t.params[t.nparams := 0], nparams := t.nparams + 1)
            else t.(params := t.params[t.nparams - 1 := 0])
  {
  }

  lemma ExtendSlots(params: seq<nat>, n: nat)
    requires n < |params|
    ensures params[n := 0][..n + 1] == params[..n] + [0]
  {
  }

  lemma SlotCount(fs: seq<seq<byte>>)
    requires fs != [] && DigitFields(fs)
    ensures |Slots(fs)| == if |fs| < MAX_PARAMS then |fs| else MAX_PARAMS
  {
  }

  lemma NewSlot(fs: seq<seq<byte>>)
    requires fs != [] && DigitFields(fs)
    ensures DigitFields(fs + [[]]) && DigitFields(Slots(fs) + [[]]) && DigitFields(Slots(fs)[|Slots(fs)| - 1 := []])
    ensures Numbers(Slots(fs) + [[]]) == Numbers(Slots(fs)) + [0]
    ensures Numbers(Slots(fs)[|Slots(fs)| - 1 := []]) == Numbers(Slots(fs))[|Slots(fs)| - 1 := 0]
  {
    hide Slots;
  }

  /** Scanning the body of a private sequence. */
  lemma {:induction false} FoldBody(t: State, diff: set<nat>, body: seq<byte>)
    requires Inside(t, diff, []) && Body(body)
    ensures Inside(Fold(t, body), diff, body)
    decreases |body|
  {
    if body == [] {
    } else {
      var init, b := body[..|body| - 1], body[|body| - 1];
      FoldBody(t, diff, init);
      assert body == init + [b];
      FoldSnoc(t, init, b);
      BodySnoc(init, b);
      if IsDigit(b) {
        DigitInside(Fold(t, init), diff, init, b);
      } else if Separator(b) {
        SeparatorInside(Fold(t, init), diff, init, b);
      } else {
        hide Fields, Slots, Numbers, Fold, Plain;
      }
    }
  }

  lemma Introduced(t: State)
    requires Valid(t)
    ensures Inside(Fold(t, [ESC, BRACKET, QUESTION]), t.diff, [])
  {
    var t1 := t.(scan := Esc);
    var t2 := t.(scan := Csi);
    assert Fold(t, [ESC, BRACKET, QUESTION]) == Fold(t1, [BRACKET, QUESTION]);
    assert Fold(t1, [BRACKET, QUESTION]) == Fold(t2, [QUESTION]);
    assert Fold(t2, [QUESTION]) == Fold(Step(t2, QUESTION), []);
    assert Fields([]) == [[]] && Slots([[]]) == [[]];
    assert Parse(0, []) == 0;
  }

  /** Between pieces the scanner reads text, or waits behind a sequence about to be cut off. */
  ghost predicate Between(t: State, ks: seq<Token>) {
    Valid(t) && (t.scan == Ground || (ks != [] && ks[|ks| - 1].Cut?))
  }

  lemma NumbersMean(fs: seq<seq<byte>>, num: nat)
    requires DigitFields(fs) && num < MAX_PARAM
    ensures num in Numbers(fs) <==> Lists(fs, num)
  {
    forall k | 0 <= k < |fs| ensures Numbers(fs)[k] == num <==> Value(fs[k]) == num {
      ParseValue(fs[k]);
    }
    hide Parse, Value;
    if Lists(fs, num) {
      var k :| 0 <= k < |fs| && Value(fs[k]) == num;
      assert Numbers(fs)[k] == num;
    }
  }

  lemma TrackedBelow(i: nat)
    requires i < MODES
    ensures Tracked(i).num < MAX_PARAM
  {
  }

  /** The final byte, or an abort. */
  lemma FinishPrivate(t: State, diff: set<nat>, body: seq<byte>, end: byte, i: nat)
    requires Inside(t, diff, body) && Ends(end) && i <= KEYPAD
    ensures var t' := Step(t, end);
            && Valid(t') && t'.scan == Ground
            && (i in t'.diff <==>
                  var said := Says(PrivateCsi(body, end), i); if said.Some? then said.value else i in diff)
  {
    hide SetModes, Fields, Slots, Numbers, Lists, Plain, Tracked, Step;
    FinalStep(t, end);
    var nums := t.params[..t.nparams];
    if (end == SET || end == RESET) && !t.invalid {
      SetModesMeaning(diff, nums, end == SET, i);
      if i < MODES {
        TrackedBelow(i);
        NumbersMean(Slots(Fields(body)), Tracked(i).num);
      }
    }
  }

  lemma FinalStep(t: State, end: byte)
    requires Valid(t) && t.scan == Private && Ends(end)
    ensures Step(t, end).scan == Ground
    ensures Step(t, end).diff ==
            if !t.invalid && (end == SET || end == RESET) then SetModes(t.diff, t.params[..t.nparams], end == SET) else t.diff
  {
    hide SetModes;
  }

  /** One piece of output: it changes exactly the modes it speaks of, whatever sequence it cuts off. */
  lemma TokenMeaning(t: State, k: Token, i: nat)
    requires Valid(t) && TokenOk(k) && (k.Text? ==> t.scan == Ground) && i <= KEYPAD
    ensures var t' := Fold(t, Encoding(k));
            && Valid(t') && (t'.scan == Ground || k.Cut?)
            && (i in t'.diff <==> var said := Says(k, i); if said.Some? then said.value else i in t.diff)
  {
    match k
    case Text(b) => FoldOne(t, b);
    case Simple(b) =>
      FoldSnoc(t, [ESC], b);
      FoldOne(t, ESC);
      assert [ESC] + [b] == [ESC, b];
    case OtherCsi(b) =>
      FoldSnoc(t, [ESC, BRACKET], b);
      FoldSnoc(t, [ESC], BRACKET);
      FoldOne(t, ESC);
      assert [ESC] + [BRACKET] == [ESC, BRACKET] && [ESC, BRACKET] + [b] == [ESC, BRACKET, b];
    case PrivateCsi(body, end) => PrivateMeaning(t, body, end, i);
    case Cut(bytes) => CutMeaning(t, bytes);
  }

  lemma PrivateMeaning(t: State, body: seq<byte>, end: byte, i: nat)
    requires Valid(t) && Body(body) && Ends(end) && i <= KEYPAD
    ensures var k := PrivateCsi(body, end);
            var t' := Fold(t, Encoding(k));
            && Valid(t') && t'.scan == Ground
            && (i in t'.diff <==> var said := Says(k, i); if said.Some? then said.value else i in t.diff)
  {
    var intro := [ESC, BRACKET, QUESTION];
    Introduced(t);
    FoldConcat(t, intro, body);
    FoldBody(Fold(t, intro), t.diff, body);
    FoldSnoc(t, intro + body, end);
    hide Fold, Step, Says, Inside;
    FinishPrivate(Fold(t, intro + body), t.diff, body, end, i);
  }

  lemma CutMeaning(t: State, bytes: seq<byte>)
    requires Valid(t) && TokenOk(Cut(bytes))
    ensures Fold(t, bytes).diff == t.diff
  {
    if |bytes| >= 3 {
      Introduced(t);
      FoldConcat(t, bytes[..3], bytes[3..]);
      assert bytes == bytes[..3] + bytes[3..];
      FoldBody(Fold(t, bytes[..3]), t.diff, bytes[3..]);
    } else {
      FoldOne(t, ESC);
      FoldSnoc(t, [ESC], BRACKET);
      assert [ESC] + [BRACKET] == [ESC, BRACKET];
    }
  }

  lemma SplitsInit(ks: seq<Token>)
    requires Splits(ks) && ks != []
    ensures Splits(ks[..|ks| - 1]) && TokenOk(ks[|ks| - 1])
    ensures ks[|ks| - 1].Text? ==> |ks| == 1 || !ks[|ks| - 2].Cut?
  {
    hide TokenOk;
    var init := ks[..|ks| - 1];
    assert forall i :: 0 <= i < |init| ==> init[i] == ks[i];
    if |ks| > 1 {
      assert ks[|ks| - 1 - 1].Cut? ==> !ks[|ks| - 1].Text?;
    }
  }

  /**
   The modes after any output, from any text position: mode i is what the last
   piece of the output that speaks of it says, and unchanged if none does. A
   reset speaks of every mode, ESC = and ESC > of the keypad, and ESC [ ? ... h
   and l of the modes they list.
   */
  lemma {:induction false} OutputMeaning(t: State, ks: seq<Token>, i: nat)
    requires Valid(t) && t.scan == Ground && Splits(ks) && i <= KEYPAD
    ensures Between(Fold(t, Output(ks)), ks)
    ensures i in Fold(t, Output(ks)).diff <==> LastSaid(ks, i, i in t.diff)
    decreases |ks|
  {
    if ks == [] {
    } else {
      var init, k := ks[..|ks| - 1], ks[|ks| - 1];
      SplitsInit(ks);
      OutputMeaning(t, init, i);
      FoldConcat(t, Output(init), Encoding(k));
      hide Fold, Says, Encoding, TokenOk, Splits;
      TokenMeaning(Fold(t, Output(init)), k, i);
    }
  }

  /** A terminal reset leaves no tracked mode set, in whatever sequence it comes. */
  lemma ResetClears(t: State)
    requires Valid(t)
    ensures Fold(t, [ESC, 0x63]).diff == {} && Fold(t, [ESC, 0x63]).scan == Ground
  {
    var k := Simple(0x63);
    TokenMeaning(t, k, 0);
    hide Fold;
    forall i | i in Fold(t, [ESC, 0x63]).diff ensures false {
      TokenMeaning(t, k, i);
    }
  }

  // The screen scanner.

  /** The screen scanner inside a private sequence. */
  ghost predicate AltInside(t: Alternate, state: Screen, body: seq<byte>) {
    var fs := Fields(body);
    && t.scan == Private && t.state == state
    && t.param == Parse(0, fs[|fs| - 1])
    && (t.hit <==> NamesScreen(fs[..|fs| - 1]))
    && (t.invalid <==> !Plain(body))
  }

  ghost predicate NamesScreen(fs: seq<seq<byte>>)
    requires DigitFields(fs)
  {
    Lists(fs, 47) || Lists(fs, 1047) || Lists(fs, 1049)
  }

  lemma ListsSnoc(fs: seq<seq<byte>>, f: seq<byte>, num: nat)
    requires DigitFields(fs) && AllDigits(f)
    ensures DigitFields(fs + [f]) && (Lists(fs + [f], num) <==> Lists(fs, num) || Value(f) == num)
  {
    hide Value;
    var all := fs + [f];
    assert forall k :: 0 <= k < |fs| ==> all[k] == fs[k];
    assert all[|fs|] == f;
    if Lists(fs, num) {
      var k :| 0 <= k < |fs| && Value(fs[k]) == num;
      assert Value(all[k]) == num;
    }
  }

  lemma NamesSnoc(fs: seq<seq<byte>>, f: seq<byte>)
    requires DigitFields(fs) && AllDigits(f)
    ensures DigitFields(fs + [f]) && (NamesScreen(fs + [f]) <==> NamesScreen(fs) || IsAltParam(Parse(0, f)))
  {
    ListsSnoc(fs, f, 47);
    ListsSnoc(fs, f, 1047);
    ListsSnoc(fs, f, 1049);
    ParseValue(f);
    hide Lists, Value, Parse;
  }

  lemma AltInsideStep(t: Alternate, state: Screen, body: seq<byte>, b: byte)
    requires AltInside(t, state, body) && b != ESC && !Ends(b)
    ensures AltInside(AltStep(t, b), state, body + [b])
  {
    BodySnoc(body, b);
    var fs := Fields(body);
    var n := |fs| - 1;
    if IsDigit(b) {
      ParseSnoc(0, fs[n], b);
      assert fs[n := fs[n] + [b]][..n] == fs[..n];
    } else if Separator(b) {
      NamesSnoc(fs[..n], fs[n]);
      assert fs[..n] + [fs[n]] == fs && (fs + [[]])[..n + 1] == fs;
      assert Parse(0, []) == 0;
    }
    hide Fields, NamesScreen, Plain, Parse;
  }

  lemma AltFoldSnoc(t: Alternate, p: seq<byte>, b: byte)
    ensures AltFold(t, p + [b]) == AltStep(AltFold(t, p), b)
  {
    AltFoldConcat(t, p, [b]);
    AltFoldOne(AltFold(t, p), b);
  }

  lemma AltFoldOne(t: Alternate, b: byte)
    ensures AltFold(t, [b]) == AltStep(t, b)
  {
    assert AltFold(t, [b]) == AltFold(AltStep(t, b), [][..]);
  }

  lemma {:induction false} AltFoldBody(t: Alternate, state: Screen, body: seq<byte>)
    requires AltInside(t, state, []) && Body(body)
    ensures AltInside(AltFold(t, body), state, body)
    decreases |body|
  {
    if body == [] {
    } else {
      var init, b := body[..|body| - 1], body[|body| - 1];
      hide AltInside, AltStep;
      AltFoldBody(t, state, init);
      assert body == init + [b];
      AltFoldSnoc(t, init, b);
      AltInsideStep(AltFold(t, init), state, init, b);
    }
  }

  lemma AltIntroduced(t: Alternate)
    ensures AltInside(AltFold(t, [ESC, BRACKET, QUESTION]), t.state, [])
  {
    var t1 := t.(scan := Esc);
    var t2 := t.(scan := Csi);
    assert AltFold(t, [ESC, BRACKET, QUESTION]) == AltFold(t1, [BRACKET, QUESTION]);
    assert AltFold(t1, [BRACKET, QUESTION]) == AltFold(t2, [QUESTION]);
    assert AltFold(t2, [QUESTION]) == AltFold(AltStep(t2, QUESTION), []);
    assert Fields([]) == [[]];
    assert Parse(0, []) == 0;
  }

  lemma AltFinish(t: Alternate, state: Screen, body: seq<byte>, end: byte)
    requires AltInside(t, state, body) && Ends(end)
    ensures var t' := AltStep(t, end);
            && t'.scan == Ground
            && t'.state == var said := SaysScreen(PrivateCsi(body, end)); if said.Some? then said.value else state
  {
    var fs := Fields(body);
    var n := |fs| - 1;
    NamesSnoc(fs[..n], fs[n]);
    assert fs[..n] + [fs[n]] == fs;
    hide Fields, Plain, Parse, Lists;
  }

  lemma AltTokenMeaning(t: Alternate, k: Token)
    requires TokenOk(k) && (k.Text? ==> t.scan == Ground || t.scan == Ignore)
    ensures var t' := AltFold(t, Encoding(k));
            && (t'.scan == Ground || t'.scan == Ignore || k.Cut?)
            && t'.state == var said := SaysScreen(k); if said.Some? then said.value else t.state
  {
    match k
    case Text(b) => AltFoldOne(t, b);
    case Simple(b) =>
      AltFoldSnoc(t, [ESC], b);
      AltFoldOne(t, ESC);
      assert [ESC] + [b] == [ESC, b];
    case OtherCsi(b) =>
      AltFoldSnoc(t, [ESC, BRACKET], b);
      AltFoldSnoc(t, [ESC], BRACKET);
      AltFoldOne(t, ESC);
      assert [ESC] + [BRACKET] == [ESC, BRACKET] && [ESC, BRACKET] + [b] == [ESC, BRACKET, b];
    case PrivateCsi(body, end) => AltPrivateMeaning(t, body, end);
    case Cut(bytes) => AltCutMeaning(t, bytes);
  }

  lemma AltPrivateMeaning(t: Alternate, body: seq<byte>, end: byte)
    requires Body(body) && Ends(end)
    ensures var k := PrivateCsi(body, end);
            var t' := AltFold(t, Encoding(k));
            && t'.scan == Ground
            && t'.state == var said := SaysScreen(k); if said.Some? then said.value else t.state
  {
    var intro := [ESC, BRACKET, QUESTION];
    AltIntroduced(t);
    AltFoldConcat(t, intro, body);
    AltFoldBody(AltFold(t, intro), t.state, body);
    AltFoldSnoc(t, intro + body, end);
    hide AltFold, AltStep, SaysScreen, AltInside;
    AltFinish(AltFold(t, intro + body), t.state, body, end);
  }

  lemma AltCutMeaning(t: Alternate, bytes: seq<byte>)
    requires TokenOk(Cut(bytes))
    ensures AltFold(t, bytes).state == t.state
  {
    if |bytes| >= 3 {
      AltIntroduced(t);
      AltFoldConcat(t, bytes[..3], bytes[3..]);
      assert bytes == bytes[..3] + bytes[3..];
      AltFoldBody(AltFold(t, bytes[..3]), t.state, bytes[3..]);
    } else {
      AltFoldOne(t, ESC);
      AltFoldSnoc(t, [ESC], BRACKET);
      assert [ESC] + [BRACKET] == [ESC, BRACKET];
    }
  }

  /**
   The screen after any output: what the last reset, or the last set or reset
   of mode 47, 1047 or 1049, says, and unchanged if there is none.
   */
  lemma {:induction false} ScreenMeaning(t: Alternate, ks: seq<Token>)
    requires (t.scan == Ground || t.scan == Ignore) && Splits(ks)
    ensures var t' := AltFold(t, Output(ks));
            && (t'.scan == Ground || t'.scan == Ignore || (ks != [] && ks[|ks| - 1].Cut?))
            && t'.state == LastScreen(ks, t.state)
    decreases |ks|
  {
    if ks == [] {
    } else {
      var init, k := ks[..|ks| - 1], ks[|ks| - 1];
      SplitsInit(ks);
      ScreenMeaning(t, init);
      AltFoldConcat(t, Output(init), Encoding(k));
      hide AltFold, SaysScreen, Encoding, TokenOk, Splits;
      AltTokenMeaning(AltFold(t, Output(init)), k);
    }
  }
}
