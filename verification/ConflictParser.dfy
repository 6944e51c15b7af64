/** The parsers of Git's NUL-separated conflict output, against the printers they undo. */
module ConflictParser {
  import opened Basics
  import opened Records

  const SPACE: byte := 0x20
  const TAB: byte := 0x09
  const ZERO: byte := 0x30

  predicate Digit(b: byte) { ZERO <= b <= 0x39 }

  /** validObjectID: a SHA-1 or SHA-256 name in hexadecimal, of either case. */
  predicate ValidObjectId(text: Text) {
    && (|text| == 40 || |text| == 64)
    && forall b :: b in text ==> Digit(b) || 0x61 <= b <= 0x66 || 0x41 <= b <= 0x46
  }

  predicate HexDigit(c: char) {
    c in "0123456789" || c in "abcdef" || c in "ABCDEF"
  }

  lemma HexDigitsExactly(b: byte)
    ensures Digit(b) || 0x61 <= b <= 0x66 || 0x41 <= b <= 0x46 <==> HexDigit(b as int as char)
  {
    assert Digit(b) ==> "0123456789"[b as int - 0x30] == b as int as char;
    assert 0x61 <= b <= 0x66 ==> "abcdef"[b as int - 0x61] == b as int as char;
    assert 0x41 <= b <= 0x46 ==> "ABCDEF"[b as int - 0x41] == b as int as char;
  }

  lemma ObjectIdsExactly(text: Text)
    ensures ValidObjectId(text) <==> |text| in {40, 64} && forall b :: b in text ==> HexDigit(b as int as char)
  {
    forall b | b in text
      ensures Digit(b) || 0x61 <= b <= 0x66 || 0x41 <= b <= 0x46 <==> HexDigit(b as int as char)
    {
      HexDigitsExactly(b);
    }
  }

  // ---------------------------------------------------------------- similarity scores

  function DigitValue(b: byte): (n: nat)
    requires Digit(b)
    ensures n < 10
  {
    (b - ZERO) as nat
  }

  function DigitOf(n: nat): byte
    requires n < 10
  {
    ZERO + n as byte
  }

  /** Three decimal digits. */
  function Score(value: Text): nat
    requires |value| == 3 && forall b :: b in value ==> Digit(b)
  {
    DigitValue(value[0]) * 100 + DigitValue(value[1]) * 10 + DigitValue(value[2])
  }

  function Digits(n: nat): Text {
    [DigitOf(n / 100 % 10), DigitOf(n / 10 % 10), DigitOf(n % 10)]
  }

  lemma DecimalDigits(h: nat, t: nat, u: nat)
    requires h < 10 && t < 10 && u < 10
    ensures var n := h * 100 + t * 10 + u; n / 100 % 10 == h && n / 10 % 10 == t && n % 10 == u
  {}

  lemma DigitsOfScore(value: Text)
    requires |value| == 3 && forall b :: b in value ==> Digit(b)
    ensures Digits(Score(value)) == value
  {
    DecimalDigits(DigitValue(value[0]), DigitValue(value[1]), DigitValue(value[2]));
  }

  /** validSimilarityScore */
  predicate ValidSimilarityScore(value: Text) {
    |value| == 3 && (forall b :: b in value ==> Digit(b)) && Score(value) <= 100
  }

  /** The scores are the numbers up to a hundred, in three digits. */
  lemma ScoresExactly(value: Text)
    ensures ValidSimilarityScore(value) <==> exists n :: 0 <= n <= 100 && value == Digits(n)
  {
    if ValidSimilarityScore(value) {
      DigitsOfScore(value);
    }
    if n :| 0 <= n <= 100 && value == Digits(n) {
      assert Score(value) == n;
    }
  }

  lemma ScoreOfDigits(n: nat)
    requires n <= 100
    ensures ValidSimilarityScore(Digits(n)) && Score(Digits(n)) == n
  {}

  // ---------------------------------------------------------------- name-status

  const MODIFIED: byte := 0x4D
  const DELETED: byte := 0x44
  const RENAMED: byte := 0x52
  const COPIED: byte := 0x43

  datatype NameStatus = NameStatus(status: byte, score: nat, oldPath: Text, path: Text)

  predicate ValidName(e: NameStatus) {
    && e.path != [] && NUL !in e.path
    && if e.status == MODIFIED || e.status == DELETED then e.score == 0 && e.oldPath == []
       else (e.status == RENAMED || e.status == COPIED) && e.score <= 100 && e.oldPath != [] && NUL !in e.oldPath
  }

  function PrintName(e: NameStatus): seq<Text> {
    if e.status == MODIFIED || e.status == DELETED then [[e.status], e.path]
    else [[e.status] + Digits(e.score), e.oldPath, e.path]
  }

  function TakeName(parts: seq<Text>): Option<NameStatus> {
    if |parts| < 2 || |parts[0]| == 0 then None
    else
      var status := parts[0][0];
      if |parts[0]| == 1 && (status == MODIFIED || status == DELETED) then
        if parts[1] == [] then None else Some(NameStatus(status, 0, [], parts[1]))
      else if (status != RENAMED && status != COPIED) || !ValidSimilarityScore(parts[0][1..]) then None
      else if |parts| < 3 || parts[1] == [] || parts[2] == [] then None
      else Some(NameStatus(status, Score(parts[0][1..]), parts[1], parts[2]))
  }

  lemma NameCodec()
    ensures Codec(TakeName, PrintName, ValidName)
  {
    forall parts | TakeName(parts).Some?
      ensures PrintName(TakeName(parts).value) <= parts
      ensures NULFree(PrintName(TakeName(parts).value)) ==> ValidName(TakeName(parts).value)
    {
      var e := TakeName(parts).value;
      assert e.path in PrintName(e) && (|PrintName(e)| == 3 ==> e.oldPath in PrintName(e));
      if |PrintName(e)| == 3 {
        DigitsOfScore(parts[0][1..]);
        assert parts[0] == [parts[0][0]] + parts[0][1..];
      } else {
        assert parts[0] == [parts[0][0]];
      }
    }
    forall e | ValidName(e)
      ensures Readable(TakeName, PrintName, e) && NULFree(PrintName(e))
    {
      ScoreOfDigits(if e.score <= 100 then e.score else 0);
      forall parts | PrintName(e) <= parts
        ensures TakeName(parts) == Some(e)
      {
        assert parts[0] == PrintName(e)[0] && parts[1] == PrintName(e)[1];
        if |PrintName(e)| == 3 {
          assert parts[2] == PrintName(e)[2];
          assert parts[0][1..] == Digits(e.score);
        }
      }
    }
  }

  ghost predicate ValidNames(entries: seq<NameStatus>) {
    forall e :: e in entries ==> ValidName(e)
  }

  function PrintNames(entries: seq<NameStatus>): Text {
    Terminated(PrintAll(PrintName, entries))
  }

  /** parseNameStatusZ accepts exactly the printed lists of valid entries, and returns that list. */
  method ParseNameStatus(data: Text) returns (r: Option<seq<NameStatus>>)
    ensures r.Some? ==> ValidNames(r.value) && PrintNames(r.value) == data
    ensures forall entries :: ValidNames(entries) && PrintNames(entries) == data ==> r == Some(entries)
  {
    NameCodec();
    forall entries
      ensures Read(TakeName, PrintName, data) == Some(entries) <==> ValidNames(entries) && PrintNames(entries) == data
    {
      ReadsExactlyWhatIsPrinted(TakeName, PrintName, ValidName, data, entries);
    }
    var split := SplitNULTerminated(data);
    if split.None? {
      return None;
    }
    r := ReadNames(split.value);
  }

  /** The loop of parseNameStatusZ: an entry is two parts or three. */
  method ReadNames(parts: seq<Text>) returns (r: Option<seq<NameStatus>>)
    requires Format(TakeName, PrintName)
    ensures r == ReadAll(TakeName, PrintName, parts)
  {
    var entries := [];
    var index := 0;
    AfterNothing(ReadAll(TakeName, PrintName, parts));
    assert parts[0..] == parts;
    while index < |parts|
      invariant 0 <= index <= |parts|
      invariant ReadAll(TakeName, PrintName, parts) == After(entries, ReadAll(TakeName, PrintName, parts[index..]))
    {
      var status := parts[index];
      ghost var rest := parts[index..];
      if |status| == 1 && (status[0] == MODIFIED || status[0] == DELETED) {
        if index + 1 >= |parts| || parts[index + 1] == [] {
          return None;
        }
        var e := NameStatus(status[0], 0, [], parts[index + 1]);
        assert TakeName(rest) == Some(e) && rest[2..] == parts[index + 2..];
        AfterAfter(entries, e, ReadAll(TakeName, PrintName, parts[index + 2..]));
        entries := entries + [e];
        index := index + 2;
      } else {
        if |status| != 4 || (status[0] != RENAMED && status[0] != COPIED) || !ValidSimilarityScore(status[1..])
           || index + 2 >= |parts| || parts[index + 1] == [] || parts[index + 2] == [] {
          return None;
        }
        var e := NameStatus(status[0], Score(status[1..]), parts[index + 1], parts[index + 2]);
        assert TakeName(rest) == Some(e) && rest[3..] == parts[index + 3..];
        AfterAfter(entries, e, ReadAll(TakeName, PrintName, parts[index + 3..]));
        entries := entries + [e];
        index := index + 3;
      }
    }
    assert parts[index..] == [] && entries + [] == entries;
    r := Some(entries);
  }

  // ---------------------------------------------------------------- attributes

  datatype Attribute = Attribute(path: Text, name: Text, value: Text)

  predicate ValidAttribute(e: Attribute) {
    e.path != [] && NUL !in e.path && NUL !in e.name && NUL !in e.value
  }

  function PrintAttribute(e: Attribute): seq<Text> {
    [e.path, e.name, e.value]
  }

  function TakeAttribute(parts: seq<Text>): Option<Attribute> {
    if |parts| < 3 || parts[0] == [] then None else Some(Attribute(parts[0], parts[1], parts[2]))
  }

  lemma AttributeCodec()
    ensures Codec(TakeAttribute, PrintAttribute, ValidAttribute)
  {
    forall parts | TakeAttribute(parts).Some?
      ensures PrintAttribute(TakeAttribute(parts).value) <= parts
      ensures NULFree(PrintAttribute(TakeAttribute(parts).value)) ==> ValidAttribute(TakeAttribute(parts).value)
    {
      var e := TakeAttribute(parts).value;
      assert e.path in PrintAttribute(e) && e.name in PrintAttribute(e) && e.value in PrintAttribute(e);
    }
    forall e, parts | ValidAttribute(e) && PrintAttribute(e) <= parts
      ensures TakeAttribute(parts) == Some(e)
    {
      assert parts[0] == PrintAttribute(e)[0] && parts[1] == PrintAttribute(e)[1] && parts[2] == PrintAttribute(e)[2];
    }
  }

  ghost predicate ValidAttributes(entries: seq<Attribute>) {
    forall e :: e in entries ==> ValidAttribute(e)
  }

  function PrintAttributes(entries: seq<Attribute>): Text {
    Terminated(PrintAll(PrintAttribute, entries))
  }

  lemma {:induction false} AttributesComeInThrees(parts: seq<Text>)
    requires Format(TakeAttribute, PrintAttribute)
    ensures ReadAll(TakeAttribute, PrintAttribute, parts).Some? ==> |parts| % 3 == 0
    decreases |parts|
  {
    if parts != [] && TakeAttribute(parts).Some? {
      AttributesComeInThrees(parts[3..]);
    }
  }

  /** parseCheckAttrZ accepts exactly the printed lists of valid attributes, and returns that list. */
  method ParseCheckAttr(data: Text) returns (r: Option<seq<Attribute>>)
    ensures r.Some? ==> ValidAttributes(r.value) && PrintAttributes(r.value) == data
    ensures forall entries :: ValidAttributes(entries) && PrintAttributes(entries) == data ==> r == Some(entries)
  {
    AttributeCodec();
    forall entries
      ensures Read(TakeAttribute, PrintAttribute, data) == Some(entries)
              <==> ValidAttributes(entries) && PrintAttributes(entries) == data
    {
      ReadsExactlyWhatIsPrinted(TakeAttribute, PrintAttribute, ValidAttribute, data, entries);
    }
    var split := SplitNULTerminated(data);
    if split.None? {
      return None;
    }
    r := ReadAttributes(split.value);
  }

  /** The loop of parseCheckAttrZ, with its check of the number of parts. */
  method ReadAttributes(parts: seq<Text>) returns (r: Option<seq<Attribute>>)
    requires Format(TakeAttribute, PrintAttribute)
    ensures r == ReadAll(TakeAttribute, PrintAttribute, parts)
  {
    AttributesComeInThrees(parts);
    if |parts| % 3 != 0 {
      return None;
    }
    var entries := [];
    var index := 0;
    AfterNothing(ReadAll(TakeAttribute, PrintAttribute, parts));
    assert parts[0..] == parts;
    while index < |parts|
      invariant 0 <= index <= |parts| && index % 3 == 0
      invariant ReadAll(TakeAttribute, PrintAttribute, parts)
             == After(entries, ReadAll(TakeAttribute, PrintAttribute, parts[index..]))
    {
      ghost var rest := parts[index..];
      if parts[index] == [] {
        return None;
      }
      var e := Attribute(parts[index], parts[index + 1], parts[index + 2]);
      assert TakeAttribute(rest) == Some(e) && rest[3..] == parts[index + 3..];
      AfterAfter(entries, e, ReadAll(TakeAttribute, PrintAttribute, parts[index + 3..]));
      entries := entries + [e];
      index := index + 3;
    }
    assert parts[index..] == [] && entries + [] == entries;
    r := Some(entries);
  }
}
