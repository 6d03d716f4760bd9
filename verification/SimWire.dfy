/** The bytes of a simulation command, and the data fields that are accepted for it. */
module SimWire {
  import opened Options
  import opened SimText
  import opened SimCodec

  /** What is printed: the magic word, target and id in decimal, and the action. */
  function Printed(c: Command): Text {
    "SIM1 " + Digits(c.target) + " " + Digits(c.id) +
    match c.action
    case Start => " START"
    case Stop => " STOP"
    case Time(minute) => " TIME " + Digits(minute)
  }

  /** Decimal: the last digit counts once and what precedes it ten times. */
  lemma Decimal(t: Text, c: char)
    requires AllDigits(t) && '0' <= c <= '9'
    ensures Value([]) == 0 && Value(t + [c]) == 10 * Value(t) + (c as int - 48)
  {
    assert (t + [c])[..|t|] == t;
  }

  lemma SpacedOne(tokens: seq<Text>, word: Text)
    ensures Spaced(tokens + [word]) == Spaced(tokens) + word + " "
  {
    assert (tokens + [word])[..|tokens|] == tokens;
  }

  lemma SpacedTwo(a: Text, b: Text)
    ensures Spaced([a, b]) == a + " " + b + " "
  {
    SpacedOne([], a);
    assert [] + [a] == [a];
    SpacedOne([a], b);
    assert [a] + [b] == [a, b];
  }

  lemma SpacedThree(a: Text, b: Text, c: Text)
    ensures Spaced([a, b, c]) == a + " " + b + " " + c + " "
  {
    SpacedTwo(a, b);
    SpacedOne([a, b], c);
    assert [a, b] + [c] == [a, b, c];
  }

  lemma SpacedFour(a: Text, b: Text, c: Text, d: Text)
    ensures Spaced([a, b, c, d]) == a + " " + b + " " + c + " " + d + " "
  {
    SpacedThree(a, b, c);
    SpacedOne([a, b, c], d);
    assert [a, b, c] + [d] == [a, b, c, d];
  }

  lemma EncodeIsPrinted(c: Command)
    ensures Encode(c) == Printed(c)
  {
    var target, id := Digits(c.target), Digits(c.id);
    if c.action.Time? {
      SpacedFour("SIM1", target, id, "TIME");
      assert "SIM1" + " " == "SIM1 " && " " + "TIME" + " " == " TIME ";
      assert Encode(c) == "SIM1 " + target + " " + id + " TIME " + Digits(c.action.minute);
    } else {
      var word := if c.action.Start? then "START" else "STOP";
      SpacedThree("SIM1", target, id);
      assert "SIM1" + " " == "SIM1 " && " " + "START" == " START" && " " + "STOP" == " STOP";
      assert Encode(c) == "SIM1 " + target + " " + id + (" " + word);
    }
  }

  /** One intersection or all of them, a sixteen-bit id and a minute of the day. */
  predicate Sendable(c: Command) {
    (c.target <= 5 || c.target == 255) && c.id <= 65535 && (c.action.Time? ==> c.action.minute <= 1439)
  }

  /** The field holds the printed command, and zero bytes up to its end. */
  predicate Holds(data: Text, c: Command) {
    && |Printed(c)| < |data| && data[..|Printed(c)|] == Printed(c)
    && forall i :: |Printed(c)| <= i < |data| ==> data[i] == '\0'
  }

  lemma HoldsIsFrame(data: Text, c: Command)
    requires |data| == 64 && |Encode(c)| < 64
    ensures Holds(data, c) <==> data == Frame(Encode(c))
  {
    EncodeIsPrinted(c);
    var n := |Printed(c)|;
    if Holds(data, c) {
      assert data == data[..n] + data[n..];
      assert data[n..] == seq(64 - n, _ => '\0');
    }
  }

  /** Central's decoder accepts exactly the fields that hold the printed text of a sendable command, and reads
      that command. */
  lemma CentralAcceptsExactly(data: Text, c: Command)
    requires |data| == 64
    ensures CentralDecode(data) == Some(c) <==> Sendable(c) && Holds(data, c)
  {
    if CentralDecode(data) == Some(c) {
      DecodesOnlyCanonical(data);
      HoldsIsFrame(data, c);
    }
    if Sendable(c) {
      DecodeEncode(c);
      HoldsIsFrame(data, c);
    }
  }

  /** The field holds the printed command and a zero byte after it. */
  predicate Starts(data: Text, c: Command) {
    |Printed(c)| < |data| && data[..|Printed(c)|] == Printed(c) && data[|Printed(c)|] == '\0'
  }

  lemma StartsIsText(data: Text, c: Command)
    requires |data| == 64 && Sendable(c)
    ensures |Encode(c)| < 64
    ensures Starts(data, c) <==> TextLength(data, 0) < 64 && data[..TextLength(data, 0)] == Encode(c)
  {
    EncodeIsPrinted(c);
    EncodeFits(c);
    var n, m := TextLength(data, 0), |Printed(c)|;
    if Starts(data, c) {
      assert forall i :: 0 <= i < m ==> data[i] == data[..m][i] == Encode(c)[i];
      assert n == m;
    }
  }

  /** The intersection accepts exactly the fields that start with the printed text of a command for one
      intersection, with an id other than zero. */
  lemma LocalAcceptsExactly(data: Text, c: Command)
    requires |data| == 64
    ensures LocalDecode(data) == Some(c) <==> Sendable(c) && c.target <= 5 && c.id >= 1 && Starts(data, c)
  {
    var n := TextLength(data, 0);
    if LocalDecode(data) == Some(c) {
      LocalReadsOnlyWords(Split(data[..n]));
      JoinSplit(data[..n]);
      StartsIsText(data, c);
    }
    if Sendable(c) && c.target <= 5 && c.id >= 1 {
      LocalReadsWords(c);
      StartsIsText(data, c);
    }
  }
}
