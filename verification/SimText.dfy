/** Text of the simulation commands: decimal numbers and tokens separated by single spaces. */
module SimText {
  import opened Options

  type Text = seq<char>

  // ----- numbers -----

  predicate IsDigit(c: char) {
    '0' <= c <= '9'
  }

  predicate AllDigits(t: Text) {
    forall i :: 0 <= i < |t| ==> IsDigit(t[i])
  }

  function DigitValue(c: char): nat
    requires IsDigit(c)
  {
    c as int - '0' as int
  }

  function Value(t: Text): nat
    requires AllDigits(t)
  {
    if t == [] then 0 else Value(t[..|t| - 1]) * 10 + DigitValue(t[|t| - 1])
  }

  function DigitChar(d: nat): (c: char)
    requires d < 10
    ensures IsDigit(c) && DigitValue(c) == d
  {
    ('0' as int + d) as char
  }

  /** The decimal text of a number, as printed with %u. */
  function Digits(n: nat): (t: Text)
    ensures t != [] && AllDigits(t)
  {
    if n < 10 then [DigitChar(n)] else Digits(n / 10) + [DigitChar(n % 10)]
  }

  /** No leading zero, except in "0" itself. */
  predicate Canonical(t: Text) {
    t != [] && AllDigits(t) && (t[0] == '0' ==> |t| == 1)
  }

  lemma {:induction false} ValueOfDigits(n: nat)
    ensures Value(Digits(n)) == n && Canonical(Digits(n))
    decreases n
  {
    if n < 10 {
      assert [DigitChar(n)][..0] == [];
    } else {
      ValueOfDigits(n / 10);
      var t := Digits(n);
      assert t[..|t| - 1] == Digits(n / 10);
      LeadingDigit(n / 10);
    }
  }

  lemma {:induction false} LeadingDigit(n: nat)
    requires n > 0
    ensures Digits(n)[0] != '0'
    decreases n
  {
    if n >= 10 {
      LeadingDigit(n / 10);
    } else {
      assert DigitValue(Digits(n)[0]) == n;
    }
  }

  lemma {:induction false} PositiveValue(t: Text)
    requires Canonical(t) && t[0] != '0'
    ensures Value(t) > 0
    decreases |t|
  {
    if |t| > 1 {
      PositiveValue(t[..|t| - 1]);
    }
  }

  /** A number has one canonical text. */
  lemma {:induction false} DigitsOfValue(t: Text)
    requires Canonical(t)
    ensures Digits(Value(t)) == t
    decreases |t|
  {
    var n := |t| - 1;
    if n == 0 {
      assert t[..0] == [];
      assert Value(t) == DigitValue(t[0]);
      assert DigitChar(DigitValue(t[0])) == t[0];
    } else {
      PositiveValue(t[..n]);
      DigitsOfValue(t[..n]);
      assert Value(t) / 10 == Value(t[..n]) && Value(t) % 10 == DigitValue(t[n]);
      assert DigitChar(DigitValue(t[n])) == t[n];
      assert t == t[..n] + [t[n]];
    }
  }

  lemma {:induction false} ValueGrows(t: Text, n: nat)
    requires AllDigits(t) && n <= |t|
    ensures Value(t[..n]) <= Value(t)
    decreases |t|
  {
    if n < |t| {
      var k := |t| - 1;
      assert t[..k][..n] == t[..n];
      ValueGrows(t[..k], n);
    } else {
      assert t[..n] == t;
    }
  }

  /** The number a text denotes, if it is one within the bounds. */
  function Number(t: Text, minimum: nat, maximum: nat): Option<nat> {
    if t != [] && AllDigits(t) && minimum <= Value(t) <= maximum then Some(Value(t)) else None
  }

  /** Digit by digit: the guard before each multiplication rejects exactly the numbers above the maximum. */
  method ParseNumber(t: Text, minimum: nat, maximum: nat) returns (r: Option<nat>)
    ensures r == Number(t, minimum, maximum)
  {
    if t == [] {
      return None;
    }
    var value, i := 0, 0;
    while i < |t|
      invariant i <= |t| && AllDigits(t[..i]) && value == Value(t[..i]) <= maximum
    {
      if !IsDigit(t[i]) {
        return None;
      }
      var digit := DigitValue(t[i]);
      assert t[..i + 1] == t[..i] + [t[i]];
      assert t[..i + 1][..i] == t[..i];
      if value > maximum / 10 || (value == maximum / 10 && digit > maximum % 10) {
        assert Value(t[..i + 1]) > maximum;
        if AllDigits(t) {
          ValueGrows(t, i + 1);
        }
        return None;
      }
      value := value * 10 + digit;
      i := i + 1;
    }
    assert t[..i] == t;
    return if value < minimum then None else Some(value);
  }

  /** The intersection's parser also refuses a leading zero. */
  method ParseCanonical(t: Text, maximum: nat) returns (r: Option<nat>)
    ensures r == if Canonical(t) then Number(t, 0, maximum) else None
  {
    if t == [] || (t[0] == '0' && |t| > 1) {
      return None;
    }
    r := ParseNumber(t, 0, maximum);
  }

  // ----- tokens -----

  predicate NoSpace(t: Text) {
    forall i :: 0 <= i < |t| ==> t[i] != ' '
  }

  /** A text cut at every space: the tokens that are complete, and the one after the last space. */
  datatype Cut = Cut(done: seq<Text>, last: Text)
  {
    function Count(): nat {
      |done| + 1
    }

    function Extend(c: char): Cut {
      if c == ' ' then Cut(done + [last], []) else Cut(done, last + [c])
    }

    predicate Clean() {
      NoSpace(last) && forall i :: 0 <= i < |done| ==> NoSpace(done[i])
    }
  }

  /** The first n characters, cut. */
  function SplitTo(t: Text, n: nat): Cut
    requires n <= |t|
  {
    if n == 0 then Cut([], []) else SplitTo(t, n - 1).Extend(t[n - 1])
  }

  function Split(t: Text): Cut {
    SplitTo(t, |t|)
  }

  /** Each of the tokens followed by a space. */
  function Spaced(tokens: seq<Text>): Text {
    if tokens == [] then [] else Spaced(tokens[..|tokens| - 1]) + tokens[|tokens| - 1] + [' ']
  }

  function Join(c: Cut): Text {
    Spaced(c.done) + c.last
  }

  lemma JoinExtend(c: Cut, x: char)
    requires c.Clean()
    ensures Join(c.Extend(x)) == Join(c) + [x] && c.Extend(x).Clean()
  {
    if x == ' ' {
      assert (c.done + [c.last])[..|c.done|] == c.done;
    }
  }

  lemma {:induction false} JoinSplitTo(t: Text, n: nat)
    requires n <= |t|
    ensures Join(SplitTo(t, n)) == t[..n] && SplitTo(t, n).Clean()
  {
    if n > 0 {
      JoinSplitTo(t, n - 1);
      JoinExtend(SplitTo(t, n - 1), t[n - 1]);
      assert t[..n] == t[..n - 1] + [t[n - 1]];
    }
  }

  lemma JoinSplit(t: Text)
    ensures Join(Split(t)) == t && Split(t).Clean()
  {
    JoinSplitTo(t, |t|);
    assert t[..|t|] == t;
  }

  lemma {:induction false} SamePrefix(t: Text, u: Text, n: nat)
    requires n <= |t| && n <= |u| && forall i :: 0 <= i < n ==> t[i] == u[i]
    ensures SplitTo(t, n) == SplitTo(u, n)
  {
    if n > 0 {
      SamePrefix(t, u, n - 1);
    }
  }

  /** A stretch without spaces only makes the last token longer. */
  lemma {:induction false} SplitWord(t: Text, start: nat, end: nat)
    requires start <= end <= |t| && forall i :: start <= i < end ==> t[i] != ' '
    ensures SplitTo(t, end) == Cut(SplitTo(t, start).done, SplitTo(t, start).last + t[start..end])
    decreases end
  {
    var c := SplitTo(t, start);
    if start == end {
      assert c.last + t[start..end] == c.last;
    } else {
      SplitWord(t, start, end - 1);
      assert c.last + t[start..end - 1] + [t[end - 1]] == c.last + t[start..end];
    }
  }

  /** One token more, and the space after it. */
  lemma SplitMore(s: Text, tokens: seq<Text>, word: Text)
    requires Split(s) == Cut(tokens, []) && NoSpace(word)
    ensures Split(s + word + [' ']) == Cut(tokens + [word], [])
  {
    var t, n := s + word + [' '], |s| + |word|;
    SamePrefix(t, s, |s|);
    assert t[|s|..n] == word && [] + word == word;
    SplitWord(t, |s|, n);
    assert SplitTo(t, n) == Cut(tokens, word) && t[n] == ' ' && |t| == n + 1;
  }

  lemma {:induction false} SplitSpaced(tokens: seq<Text>)
    requires forall i :: 0 <= i < |tokens| ==> NoSpace(tokens[i])
    ensures Split(Spaced(tokens)) == Cut(tokens, [])
    decreases |tokens|
  {
    if tokens != [] {
      var k := |tokens| - 1;
      SplitSpaced(tokens[..k]);
      SplitMore(Spaced(tokens[..k]), tokens[..k], tokens[k]);
      assert tokens[..k] + [tokens[k]] == tokens;
    }
  }

  lemma SplitJoin(c: Cut)
    requires c.Clean()
    ensures Split(Join(c)) == c
  {
    var s, t := Spaced(c.done), Join(c);
    SplitSpaced(c.done);
    SamePrefix(t, s, |s|);
    SplitWord(t, |s|, |t|);
    assert [] + t[|s|..|t|] == c.last;
  }

  /** Tokens that are complete stay as they are. */
  lemma {:induction false} DonePrefix(t: Text, m: nat, n: nat)
    requires m <= n <= |t|
    ensures SplitTo(t, m).done <= SplitTo(t, n).done
    decreases n
  {
    if m < n {
      DonePrefix(t, m, n - 1);
    }
  }

  const MAX_TOKENS := 5

  /** Central's tokenizer cuts at every space and gives up at a sixth token. */
  method CutTokens(t: Text) returns (r: Option<Cut>)
    ensures r == if Split(t).Count() <= MAX_TOKENS then Some(Split(t)) else None
  {
    var done: seq<Text>, start, i := [], 0, 0;
    while i < |t|
      invariant start <= i <= |t| && |done| < MAX_TOKENS
      invariant SplitTo(t, i) == Cut(done, t[start..i])
    {
      assert t[start..i] + [t[i]] == t[start..i + 1];
      if t[i] == ' ' {
        if |done| + 1 == MAX_TOKENS {
          DonePrefix(t, i + 1, |t|);
          return None;
        }
        done := done + [t[start..i]];
        start := i + 1;
      }
      i := i + 1;
    }
    assert t[start..i] == t[start..];
    return Some(Cut(done, t[start..]));
  }
}
