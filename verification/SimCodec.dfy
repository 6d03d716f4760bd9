/** The SIM1 command text: Central's printer and decoder, and the independent parser of the intersections. */
module SimCodec {
  import opened Options
  import opened SimText

  const DATA_SIZE := 64
  const NUL := '\0'
  const NUM_INTERSECTIONS := 6
  const INTERSECTION_ALL := 255
  const MAX_ID := 0xFFFF
  const LAST_MINUTE := 1439

  datatype Action = Start | Stop | Time(minute: nat)

  datatype Command = Command(target: nat, id: nat, action: Action)
  {
    predicate Valid() {
      && (target < NUM_INTERSECTIONS || target == INTERSECTION_ALL) && id <= MAX_ID
      && (action.Time? ==> action.minute <= LAST_MINUTE)
    }
  }

  /** The tokens of a command. */
  function Words(c: Command): Cut {
    match c.action
    case Start => Cut(["SIM1", Digits(c.target), Digits(c.id)], "START")
    case Stop => Cut(["SIM1", Digits(c.target), Digits(c.id)], "STOP")
    case Time(minute) => Cut(["SIM1", Digits(c.target), Digits(c.id), "TIME"], Digits(minute))
  }

  function Encode(c: Command): Text {
    Join(Words(c))
  }

  // ----- the data field -----

  predicate NoNul(t: Text) {
    forall i :: 0 <= i < |t| ==> t[i] != NUL
  }

  /** A text in the data field, filled up with zero bytes. */
  function Frame(t: Text): (data: Text)
    requires |t| < DATA_SIZE
    ensures |data| == DATA_SIZE
  {
    t + seq(DATA_SIZE - |t|, _ => NUL)
  }

  /** The position of the first zero byte at or after k, or the length. */
  function TextLength(data: Text, k: nat): (n: nat)
    requires k <= |data|
    ensures k <= n <= |data| && (n < |data| ==> data[n] == NUL)
    ensures forall i :: k <= i < n ==> data[i] != NUL
    decreases |data| - k
  {
    if k == |data| || data[k] == NUL then k else TextLength(data, k + 1)
  }

  /** The text of a data field that is terminated and filled up with zero bytes. */
  function Unframe(data: Text): Option<Text> {
    var n := TextLength(data, 0);
    if |data| == DATA_SIZE && n < DATA_SIZE && forall i :: n <= i < DATA_SIZE ==> data[i] == NUL
    then Some(data[..n]) else None
  }

  lemma UnframeFrame(t: Text)
    requires |t| < DATA_SIZE && NoNul(t)
    ensures Unframe(Frame(t)) == Some(t)
  {
    var data := Frame(t);
    assert forall i :: 0 <= i < |t| ==> data[i] == t[i];
    assert data[|t|] == NUL;
    assert data[..|t|] == t;
  }

  // ----- Central's decoder -----

  /** Target, id and action from the tokens, without regard to leading zeros. */
  function ReadCentral(c: Cut): Option<Command> {
    if |c.done| < 3 || c.done[0] != "SIM1" then None
    else
      var target, id := Number(c.done[1], 0, INTERSECTION_ALL), Number(c.done[2], 0, MAX_ID);
      if target.None? || (target.value >= NUM_INTERSECTIONS && target.value != INTERSECTION_ALL) || id.None? then None
      else if |c.done| == 3 && c.last == "START" then Some(Command(target.value, id.value, Start))
      else if |c.done| == 3 && c.last == "STOP" then Some(Command(target.value, id.value, Stop))
      else if |c.done| == 4 && c.done[3] == "TIME" && Number(c.last, 0, LAST_MINUTE).Some? then
        Some(Command(target.value, id.value, Time(Number(c.last, 0, LAST_MINUTE).value)))
      else None
  }

  function CentralDecode(data: Text): Option<Command> {
    match Unframe(data)
    case None => None
    case Some(t) =>
      if Split(t).Count() > MAX_TOKENS then None
      else match ReadCentral(Split(t))
        case None => None
        case Some(c) => if |Encode(c)| < DATA_SIZE && Frame(Encode(c)) == data then Some(c) else None
  }

  // ----- the parser of an intersection -----

  /** No two spaces in a row and none at the end. */
  predicate NoGaps(c: Cut) {
    (forall i :: 1 <= i < |c.done| ==> c.done[i] != []) && (|c.done| >= 1 ==> c.last != [])
  }

  function Strict(t: Text, maximum: nat): Option<nat> {
    if Canonical(t) then Number(t, 0, maximum) else None
  }

  function ReadLocal(c: Cut): Option<Command> {
    if |c.done| < 3 || c.done[0] != "SIM1" then None
    else
      var target, id := Strict(c.done[1], NUM_INTERSECTIONS - 1), Strict(c.done[2], MAX_ID);
      if target.None? || id.None? || id.value == 0 then None
      else if |c.done| == 3 && c.last == "START" then Some(Command(target.value, id.value, Start))
      else if |c.done| == 3 && c.last == "STOP" then Some(Command(target.value, id.value, Stop))
      else if |c.done| == 4 && c.done[3] == "TIME" && Strict(c.last, LAST_MINUTE).Some? then
        Some(Command(target.value, id.value, Time(Strict(c.last, LAST_MINUTE).value)))
      else None
  }

  function LocalParse(t: Text): Option<Command> {
    var c := Split(t);
    if t == [] || c.Count() > MAX_TOKENS || !NoGaps(c) then None else ReadLocal(c)
  }

  // ----- printing and reading back -----

  function Power10(k: nat): nat {
    if k == 0 then 1 else 10 * Power10(k - 1)
  }

  lemma {:induction false} DigitsLength(n: nat, k: nat)
    requires k >= 1 && n < Power10(k)
    ensures |Digits(n)| <= k
    decreases k
  {
    if n >= 10 {
      DigitsLength(n / 10, k - 1);
    }
  }

  lemma DigitsPlain(n: nat)
    ensures NoSpace(Digits(n)) && NoNul(Digits(n))
  {
  }

  lemma WordsClean(c: Command)
    ensures Words(c).Clean()
  {
    DigitsPlain(c.target);
    DigitsPlain(c.id);
    if c.action.Time? {
      DigitsPlain(c.action.minute);
    }
  }

  lemma {:induction false} SpacedNoNul(tokens: seq<Text>)
    requires forall i :: 0 <= i < |tokens| ==> NoNul(tokens[i])
    ensures NoNul(Spaced(tokens))
    decreases |tokens|
  {
    if tokens != [] {
      SpacedNoNul(tokens[..|tokens| - 1]);
    }
  }

  lemma {:induction false} SpacedLength(tokens: seq<Text>, longest: nat)
    requires forall i :: 0 <= i < |tokens| ==> |tokens[i]| <= longest
    ensures |Spaced(tokens)| <= |tokens| * (longest + 1)
    decreases |tokens|
  {
    if tokens != [] {
      SpacedLength(tokens[..|tokens| - 1], longest);
      assert |tokens| * (longest + 1) == (|tokens| - 1) * (longest + 1) + longest + 1;
    }
  }

  lemma WordsFit(c: Command, i: nat)
    requires c.Valid() && i < |Words(c).done|
    ensures |Words(c).done[i]| <= 5 && NoNul(Words(c).done[i])
  {
    assert Power10(5) == 100000;
    DigitsLength(c.target, 5);
    DigitsLength(c.id, 5);
    DigitsPlain(c.target);
    DigitsPlain(c.id);
  }

  lemma EncodeFits(c: Command)
    requires c.Valid()
    ensures |Encode(c)| < DATA_SIZE && NoNul(Encode(c))
  {
    var done := Words(c).done;
    forall i | 0 <= i < |done|
      ensures |done[i]| <= 5 && NoNul(done[i])
    {
      WordsFit(c, i);
    }
    if c.action.Time? {
      assert Power10(5) == 100000;
      DigitsLength(c.action.minute, 5);
      DigitsPlain(c.action.minute);
    }
    SpacedLength(done, 5);
    SpacedNoNul(done);
  }

  lemma SplitEncode(c: Command)
    ensures Split(Encode(c)) == Words(c)
  {
    WordsClean(c);
    SplitJoin(Words(c));
  }

  lemma ReadWords(c: Command)
    requires c.Valid()
    ensures ReadCentral(Words(c)) == Some(c)
  {
    ValueOfDigits(c.target);
    ValueOfDigits(c.id);
    if c.action.Time? {
      ValueOfDigits(c.action.minute);
    }
  }

  /** Every valid command is decoded to itself. */
  lemma DecodeEncode(c: Command)
    requires c.Valid()
    ensures |Encode(c)| < DATA_SIZE && CentralDecode(Frame(Encode(c))) == Some(c)
  {
    EncodeFits(c);
    UnframeFrame(Encode(c));
    SplitEncode(c);
    ReadWords(c);
  }

  lemma CentralReadsValid(c: Cut)
    ensures ReadCentral(c).Some? ==> ReadCentral(c).value.Valid()
  {
  }

  /** Central's decoder accepts canonical encodings only. */
  lemma DecodesOnlyCanonical(data: Text)
    requires CentralDecode(data).Some?
    ensures var c := CentralDecode(data).value; c.Valid() && |Encode(c)| < DATA_SIZE && data == Frame(Encode(c))
  {
    CentralReadsValid(Split(Unframe(data).value));
  }

  // ----- agreement of the two parsers -----

  lemma WordsStrict(c: Command)
    requires c.Valid() && c.id != 0 && c.target < NUM_INTERSECTIONS
    ensures ReadLocal(Words(c)) == Some(c)
  {
    ValueOfDigits(c.target);
    ValueOfDigits(c.id);
    if c.action.Time? {
      ValueOfDigits(c.action.minute);
    }
  }

  lemma WordsHaveNoGaps(c: Command)
    ensures NoGaps(Words(c)) && Words(c).Count() <= MAX_TOKENS && Encode(c) != []
  {
    assert Words(c).last != [];
  }

  lemma LocalReadsWords(c: Command)
    requires c.Valid() && c.id != 0 && c.target < NUM_INTERSECTIONS
    ensures LocalParse(Encode(c)) == Some(c)
  {
    SplitEncode(c);
    WordsStrict(c);
    WordsHaveNoGaps(c);
  }

  /** The tokens the intersection accepts are the printed ones. */
  lemma LocalReadsOnlyWords(w: Cut)
    requires ReadLocal(w).Some?
    ensures var c := ReadLocal(w).value; c.Valid() && c.id != 0 && c.target < NUM_INTERSECTIONS && Words(c) == w
  {
    DigitsOfValue(w.done[1]);
    DigitsOfValue(w.done[2]);
    if |w.done| == 4 {
      DigitsOfValue(w.last);
      assert w.done == [w.done[0], w.done[1], w.done[2], w.done[3]];
    } else {
      assert w.done == [w.done[0], w.done[1], w.done[2]];
    }
  }

  /** For an id other than zero and a single target, the intersection accepts exactly the texts that
      Central's decoder accepts, and reads the same command. */
  lemma ParsersAgree(t: Text, c: Command)
    requires |t| < DATA_SIZE && NoNul(t)
    ensures LocalParse(t) == Some(c) <==>
            CentralDecode(Frame(t)) == Some(c) && c.id != 0 && c.target < NUM_INTERSECTIONS
  {
    UnframeFrame(t);
    if CentralDecode(Frame(t)) == Some(c) && c.id != 0 && c.target < NUM_INTERSECTIONS {
      DecodesOnlyCanonical(Frame(t));
      EncodeFits(c);
      UnframeFrame(Encode(c));
      LocalReadsWords(c);
    }
    if LocalParse(t) == Some(c) {
      LocalReadsOnlyWords(Split(t));
      JoinSplit(t);
      DecodeEncode(c);
    }
  }

  /** The intersection reads the text up to the terminator and looks no further. */
  function LocalDecode(data: Text): Option<Command> {
    var n := TextLength(data, 0);
    if n == |data| then None else LocalParse(data[..n])
  }

  /** Only zero bytes follow the text. */
  predicate ZeroFilled(data: Text) {
    forall i :: TextLength(data, 0) <= i < |data| ==> data[i] == NUL
  }

  lemma FrameOfText(data: Text)
    requires |data| == DATA_SIZE && TextLength(data, 0) < DATA_SIZE
    ensures var t := data[..TextLength(data, 0)];
            NoNul(t) && (ZeroFilled(data) <==> Frame(t) == data) && (Unframe(data) == if ZeroFilled(data) then Some(t) else None)
  {
    var n := TextLength(data, 0);
    var t := data[..n];
    if ZeroFilled(data) {
      assert forall i :: 0 <= i < DATA_SIZE ==> Frame(t)[i] == data[i];
    }
  }

  /** On whole data fields the two parsers differ in one thing: Central also refuses anything but zero bytes
      after the text. */
  lemma FieldsAgree(data: Text, c: Command)
    requires |data| == DATA_SIZE
    ensures CentralDecode(data) == Some(c) && c.id != 0 && c.target < NUM_INTERSECTIONS <==>
            LocalDecode(data) == Some(c) && ZeroFilled(data)
  {
    if TextLength(data, 0) < DATA_SIZE {
      FrameOfText(data);
      ParsersAgree(data[..TextLength(data, 0)], c);
    }
  }

  // ----- the parsers as loops -----

  /** A space at the end or before another space leaves a gap. */
  lemma GapFound(t: Text, i: nat)
    requires i < |t| && t[i] == ' ' && (i + 1 == |t| || t[i + 1] == ' ')
    ensures !NoGaps(Split(t))
  {
    if i + 1 < |t| {
      DonePrefix(t, i + 2, |t|);
      var k := |SplitTo(t, i + 1).done|;
      assert Split(t).done[k] == SplitTo(t, i + 2).done[k] == [];
    }
  }

  method FindSpace(t: Text, start: nat) returns (end: nat)
    requires start <= |t|
    ensures start <= end <= |t| && (end < |t| ==> t[end] == ' ')
    ensures forall i :: start <= i < end ==> t[i] != ' '
  {
    end := start;
    while end < |t| && t[end] != ' '
      invariant start <= end <= |t| && forall i :: start <= i < end ==> t[i] != ' '
    {
      end := end + 1;
    }
  }

  /** The intersection's tokenizer, which refuses gaps as it meets them. */
  method CutStrictly(t: Text) returns (r: Option<Cut>)
    ensures r == if t != [] && Split(t).Count() <= MAX_TOKENS && NoGaps(Split(t)) then Some(Split(t)) else None
  {
    var done: seq<Text>, cursor := [], 0;
    while cursor < |t|
      invariant cursor <= |t| && |done| <= MAX_TOKENS && SplitTo(t, cursor) == Cut(done, [])
      invariant cursor == |t| ==> t == []
      invariant forall i :: 1 <= i < |done| ==> done[i] != []
      invariant done != [] ==> t[cursor] != ' '
    {
      if |done| == MAX_TOKENS {
        DonePrefix(t, cursor, |t|);
        return None;
      }
      var end := FindSpace(t, cursor);
      SplitWord(t, cursor, end);
      assert [] + t[cursor..end] == t[cursor..end];
      if end == |t| {
        assert t[cursor..end] == t[cursor..];
        return Some(Cut(done, t[cursor..]));
      }
      if end + 1 == |t| || t[end + 1] == ' ' {
        GapFound(t, end);
        return None;
      }
      done := done + [t[cursor..end]];
      cursor := end + 1;
    }
    return None;
  }

  method ParseLocal(data: Text) returns (r: Option<Command>)
    requires |data| == DATA_SIZE
    ensures r == LocalDecode(data)
  {
    var n := FindEnd(data);
    if n == DATA_SIZE {
      return None;
    }
    var cut := CutStrictly(data[..n]);
    if cut.None? || |cut.value.done| < 3 || cut.value.done[0] != "SIM1" {
      return None;
    }
    var tokens, last := cut.value.done, cut.value.last;
    var target := ParseCanonical(tokens[1], NUM_INTERSECTIONS - 1);
    var id := ParseCanonical(tokens[2], MAX_ID);
    if target.None? || id.None? || id.value == 0 {
      return None;
    }
    if |tokens| == 3 && last == "START" {
      return Some(Command(target.value, id.value, Start));
    }
    if |tokens| == 3 && last == "STOP" {
      return Some(Command(target.value, id.value, Stop));
    }
    if |tokens| == 4 && tokens[3] == "TIME" {
      var minute := ParseCanonical(last, LAST_MINUTE);
      if minute.Some? {
        return Some(Command(target.value, id.value, Time(minute.value)));
      }
    }
    return None;
  }

  method DecodeCentral(data: Text) returns (r: Option<Command>)
    requires |data| == DATA_SIZE
    ensures r == CentralDecode(data)
  {
    var n := FindEnd(data);
    var clean := OnlyZeros(data, n);
    if n == DATA_SIZE || !clean {
      return None;
    }
    var cut := CutTokens(data[..n]);
    if cut.None? || |cut.value.done| < 3 || cut.value.done[0] != "SIM1" {
      return None;
    }
    var c := ReadTokens(cut.value);
    if c.Some? && |Encode(c.value)| < DATA_SIZE && Frame(Encode(c.value)) == data {
      return c;
    }
    return None;
  }

  method FindEnd(data: Text) returns (n: nat)
    ensures n == TextLength(data, 0)
  {
    n := 0;
    while n < |data| && data[n] != NUL
      invariant n <= |data| && TextLength(data, 0) == TextLength(data, n)
    {
      n := n + 1;
    }
  }

  method OnlyZeros(data: Text, start: nat) returns (ok: bool)
    requires start <= |data|
    ensures ok <==> forall i :: start <= i < |data| ==> data[i] == NUL
  {
    var i := start;
    while i < |data|
      invariant start <= i <= |data| && forall k :: start <= k < i ==> data[k] == NUL
    {
      if data[i] != NUL {
        return false;
      }
      i := i + 1;
    }
    return true;
  }

  method ReadTokens(c: Cut) returns (r: Option<Command>)
    requires |c.done| >= 3 && c.done[0] == "SIM1"
    ensures r == ReadCentral(c)
  {
    var target := ParseNumber(c.done[1], 0, INTERSECTION_ALL);
    var id := ParseNumber(c.done[2], 0, MAX_ID);
    if target.None? || (target.value >= NUM_INTERSECTIONS && target.value != INTERSECTION_ALL) || id.None? {
      return None;
    }
    if |c.done| == 3 && c.last == "START" {
      return Some(Command(target.value, id.value, Start));
    }
    if |c.done| == 3 && c.last == "STOP" {
      return Some(Command(target.value, id.value, Stop));
    }
    if |c.done| == 4 && c.done[3] == "TIME" {
      var minute := ParseNumber(c.last, 0, LAST_MINUTE);
      if minute.Some? {
        return Some(Command(target.value, id.value, Time(minute.value)));
      }
    }
    return None;
  }
}
