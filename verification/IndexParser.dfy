/** parseIndexStagesZ: `mode SP oid SP stage TAB path NUL`, with any white space between the fields. */
module IndexParser {
  import opened Basics
  import opened Records
  import opened ConflictParser

  datatype IndexStage = IndexStage(path: Text, mode: Text, oid: Text, stage: nat)

  // ---------------------------------------------------------------- white-space separated fields

  predicate WhiteSpace(b: byte) {
    b == SPACE || 0x09 <= b <= 0x0D
  }

  /**
   * The length of the white space a text starts with, or zero: the ASCII characters, or U+0085, U+00A0, U+1680,
   * U+2000 to U+200A, U+2028, U+2029, U+202F, U+205F and U+3000 in UTF-8. Their first bytes continue no character,
   * so looking for them at every byte and decoding the text find the same ones.
   */
  function SpaceLength(text: Text): (n: nat)
    ensures n <= |text|
  {
    if text == [] then 0
    else if WhiteSpace(text[0]) then 1
    else if |text| >= 2 && text[0] == 0xC2 && (text[1] == 0x85 || text[1] == 0xA0) then 2
    else if |text| >= 3 && WideSpace(text[0], text[1], text[2]) then 3
    else 0
  }

  predicate WideSpace(a: byte, b: byte, c: byte) {
    || (a == 0xE1 && b == 0x9A && c == 0x80)
    || (a == 0xE2 && b == 0x80 && (0x80 <= c <= 0x8A || c == 0xA8 || c == 0xA9 || c == 0xAF))
    || (a == 0xE2 && b == 0x81 && c == 0x9F)
    || (a == 0xE3 && b == 0x80 && c == 0x80)
  }

  /** UTF-8 for a code point of at most sixteen bits: section 3 of RFC 3629. */
  function Utf8(c: int): Text
    requires 0 <= c < 0x1_0000
  {
    if c < 0x80 then [c as byte]
    else if c < 0x800 then [0xC0 + (c / 0x40) as byte, 0x80 + (c % 0x40) as byte]
    else [0xE0 + (c / 0x1000) as byte, 0x80 + (c / 0x40 % 0x40) as byte, 0x80 + (c % 0x40) as byte]
  }

  /** A text starts with white space exactly if it starts with the encoding of such a code point, and the length found
      is that of the encoding. */
  lemma SpaceIsEncoded(text: Text, c: int)
    requires SpaceCode(c) && Utf8(c) <= text
    ensures SpaceLength(text) == |Utf8(c)|
  {
    assert forall i :: 0 <= i < |Utf8(c)| ==> text[i] == Utf8(c)[i];
  }

  lemma SpaceIsDecoded(text: Text) returns (c: int)
    requires SpaceLength(text) > 0
    ensures SpaceCode(c) && Utf8(c) <= text
  {
    if SpaceLength(text) == 1 {
      c := text[0] as int;
    } else if SpaceLength(text) == 2 {
      c := (text[0] as int - 0xC0) * 0x40 + (text[1] as int - 0x80);
    } else {
      c := (text[0] as int - 0xE0) * 0x1000 + (text[1] as int - 0x80) * 0x40 + (text[2] as int - 0x80);
    }
  }

  /** Where the first white space begins. */
  function WordEnd(text: Text): (i: nat)
    ensures i <= |text| && (forall k :: 0 <= k < i ==> SpaceLength(text[k..]) == 0)
    ensures i < |text| ==> SpaceLength(text[i..]) > 0
  {
    if text == [] || SpaceLength(text) > 0 then
      assert text[0..] == text;
      0
    else
      var i := 1 + WordEnd(text[1..]);
      assert forall k :: 1 <= k <= i ==> text[k..] == text[1..][k - 1..];
      assert text[0..] == text;
      i
  }

  /** bytes.Fields. */
  function Fields(text: Text): seq<Text>
    decreases |text|
  {
    if text == [] then []
    else if SpaceLength(text) > 0 then Fields(text[SpaceLength(text)..])
    else [text[..WordEnd(text)]] + Fields(text[WordEnd(text)..])
  }

  /** A non-empty text of printable ASCII characters other than the space. */
  predicate Word(text: Text) {
    text != [] && forall b :: b in text ==> SPACE < b < 0x7F
  }

  lemma {:induction false} WordEndAt(word: Text, rest: Text)
    requires forall b :: b in word ==> SPACE < b < 0x7F
    requires rest != [] ==> SpaceLength(rest) > 0
    ensures WordEnd(word + rest) == |word|
  {
    if word == [] {
      assert word + rest == rest;
    } else {
      var text := word + rest;
      assert text[1..] == word[1..] + rest;
      assert word[0] in word && text[0] == word[0];
      assert SpaceLength(text) == 0;
      assert forall b :: b in word[1..] ==> b in word;
      WordEndAt(word[1..], rest);
    }
  }

  /** One more word, and single spaces, come out as they went in. */
  lemma FirstField(word: Text, rest: Text)
    requires Word(word)
    ensures Fields(word + [SPACE] + rest) == [word] + Fields(rest)
    ensures Fields(word) == [word]
  {
    var text := word + [SPACE] + rest;
    assert text == word + ([SPACE] + rest);
    WordEndAt(word, [SPACE] + rest);
    assert text[0] == word[0] && word[0] in word;
    assert text[..|word|] == word && text[|word|..] == [SPACE] + rest;
    assert ([SPACE] + rest)[1..] == rest;
    WordEndAt(word, []);
    assert word + [] == word && word[..|word|] == word && word[|word|..] == [];
  }

  // ---------------------------------------------------------------- records

  /** A record as it stands in the output: the metadata before the first tab, the path after it. */
  datatype Record = Record(metadata: Text, path: Text)

  /** validMode: six octal digits. */
  predicate ValidMode(mode: Text) {
    |mode| == 6 && forall b :: b in mode ==> ZERO <= b <= 0x37
  }

  lemma ModesExactly(mode: Text)
    ensures ValidMode(mode) <==> |mode| == 6 && forall b :: b in mode ==> b as int as char in "01234567"
  {
    forall b | b in mode
      ensures ZERO <= b <= 0x37 <==> b as int as char in "01234567"
    {
      assert ZERO <= b <= 0x37 ==> "01234567"[b as int - 0x30] == b as int as char;
    }
  }

  predicate ValidStage(field: Text) {
    |field| == 1 && ZERO <= field[0] <= 0x33
  }

  predicate ValidRecord(r: Record) {
    && TAB !in r.metadata && NUL !in r.metadata && r.path != [] && NUL !in r.path
    && var f := Fields(r.metadata);
       |f| == 3 && ValidMode(f[0]) && ValidObjectId(f[1]) && ValidStage(f[2])
  }

  function PrintRecord(r: Record): seq<Text> {
    [r.metadata + [TAB] + r.path]
  }

  function TakeRecord(parts: seq<Text>): Option<Record> {
    if parts == [] then None
    else
      var cut := IndexByte(parts[0], TAB);
      if cut == |parts[0]| || cut + 1 == |parts[0]| then None
      else
        var f := Fields(parts[0][..cut]);
        if |f| == 3 && ValidMode(f[0]) && ValidObjectId(f[1]) && ValidStage(f[2]) then
          Some(Record(parts[0][..cut], parts[0][cut + 1..]))
        else None
  }

  lemma RecordCodec()
    ensures Codec(TakeRecord, PrintRecord, ValidRecord)
  {
    forall parts | TakeRecord(parts).Some?
      ensures PrintRecord(TakeRecord(parts).value) <= parts
      ensures NULFree(PrintRecord(TakeRecord(parts).value)) ==> ValidRecord(TakeRecord(parts).value)
    {
      var r := TakeRecord(parts).value;
      var part := r.metadata + [TAB] + r.path;
      assert parts[0] == part;
      assert part in PrintRecord(r);
      assert forall b :: b in r.metadata || b in r.path ==> b in part;
    }
    forall r, parts | ValidRecord(r) && PrintRecord(r) <= parts
      ensures TakeRecord(parts) == Some(r)
    {
      FirstSeparator(r.metadata, TAB, r.path);
      assert parts[0] == PrintRecord(r)[0];
    }
  }

  function Stage(r: Record): IndexStage
    requires ValidRecord(r)
  {
    var f := Fields(r.metadata);
    IndexStage(r.path, f[0], f[1], (f[2][0] - ZERO) as nat)
  }

  ghost predicate ValidRecords(records: seq<Record>) {
    forall r :: r in records ==> ValidRecord(r)
  }

  /** What the parser keeps of the records. */
  ghost function Stages(records: seq<Record>): (stages: seq<IndexStage>)
    requires ValidRecords(records)
    ensures |stages| == |records|
  {
    seq(|records|, i requires 0 <= i < |records| => Stage(records[i]))
  }

  ghost predicate DistinctStages(stages: seq<IndexStage>) {
    forall i, j :: 0 <= i < j < |stages| ==> stages[i].path != stages[j].path || stages[i].stage != stages[j].stage
  }

  function PrintRecords(records: seq<Record>): Text {
    Terminated(PrintAll(PrintRecord, records))
  }

  /** The specification of the parser. */
  ghost function ParsedIndex(data: Text): Option<seq<IndexStage>> {
    var all := Read(TakeRecord, PrintRecord, data);
    if all.Some? && ValidRecords(all.value) && DistinctStages(Stages(all.value)) then Some(Stages(all.value)) else None
  }

  ghost predicate Spells(data: Text, stages: seq<IndexStage>) {
    exists records :: ValidRecords(records) && PrintRecords(records) == data && Stages(records) == stages
  }

  /** parseIndexStagesZ accepts exactly the lists of valid records with no stage of a path twice. */
  method ParseIndexStages(data: Text) returns (r: Option<seq<IndexStage>>)
    ensures r.Some? ==> Spells(data, r.value) && DistinctStages(r.value)
    ensures r == ParsedIndex(data)
    ensures forall records :: ValidRecords(records) && PrintRecords(records) == data ==>
                                r == if DistinctStages(Stages(records)) then Some(Stages(records)) else None
  {
    RecordCodec();
    forall records
      ensures Read(TakeRecord, PrintRecord, data) == Some(records) <==> ValidRecords(records) && PrintRecords(records) == data
    {
      ReadsExactlyWhatIsPrinted(TakeRecord, PrintRecord, ValidRecord, data, records);
    }
    var split := SplitNULTerminated(data);
    if split.None? {
      return None;
    }
    SplitTerminated(data, split.value);
    WhatIsReadIsValid(TakeRecord, PrintRecord, ValidRecord, split.value);
    r := ReadStages(split.value);
  }

  /** The key of `seen` names path and stage without ambiguity. */
  lemma KeyIsInjective(a: Text, s: Text, b: Text, t: Text)
    requires |s| == 1 && |t| == 1
    ensures a + [NUL] + s == b + [NUL] + t <==> a == b && s == t
  {
    var k, l := a + [NUL] + s, b + [NUL] + t;
    if k == l {
      assert k[..|k| - 2] == a && l[..|l| - 2] == b;
      assert k[|k| - 1..] == s && l[|l| - 1..] == t;
    }
  }

  function Key(r: Record): Text
    requires ValidRecord(r)
  {
    r.path + [NUL] + Fields(r.metadata)[2]
  }

  lemma SameKey(a: Record, b: Record)
    requires ValidRecord(a) && ValidRecord(b)
    ensures Key(a) == Key(b) <==> Stage(a).path == Stage(b).path && Stage(a).stage == Stage(b).stage
  {
    var s, t := Fields(a.metadata)[2], Fields(b.metadata)[2];
    KeyIsInjective(a.path, s, b.path, t);
    assert s == [s[0]] && t == [t[0]];
  }

  ghost function Keys(records: seq<Record>): set<Text>
    requires ValidRecords(records)
  {
    set r | r in records :: Key(r)
  }

  ghost predicate Fresh(records: seq<Record>, record: Record)
    requires ValidRecords(records) && ValidRecord(record)
  {
    Key(record) !in Keys(records)
  }

  /** Once a key repeats, no continuation of the list is free of duplicates. */
  lemma Repeated(records: seq<Record>, record: Record, rest: Option<seq<Record>>)
    requires ValidRecords(records) && ValidRecord(record) && !Fresh(records, record)
    ensures var all := After(records + [record], rest);
            all.Some? && ValidRecords(all.value) ==> !DistinctStages(Stages(all.value))
  {
    var all := After(records + [record], rest);
    if all.Some? && ValidRecords(all.value) {
      var r :| r in records && Key(r) == Key(record);
      var i :| 0 <= i < |records| && records[i] == r;
      SameKey(records[i], record);
      assert all.value[i] == records[i] && all.value[|records|] == record;
      assert Stages(all.value)[i].path == Stages(all.value)[|records|].path;
    }
  }

  /** A new key keeps the list free of duplicates. */
  lemma Extended(records: seq<Record>, record: Record)
    requires ValidRecords(records) && ValidRecord(record) && Fresh(records, record)
    requires DistinctStages(Stages(records))
    ensures ValidRecords(records + [record])
    ensures Stages(records + [record]) == Stages(records) + [Stage(record)]
    ensures DistinctStages(Stages(records) + [Stage(record)])
    ensures Keys(records + [record]) == Keys(records) + {Key(record)}
  {
    assert forall r :: r in records + [record] <==> r in records || r == record;
    var stages := Stages(records) + [Stage(record)];
    forall i | 0 <= i < |records|
      ensures stages[i].path != stages[|records|].path || stages[i].stage != stages[|records|].stage
    {
      assert records[i] in records && Key(records[i]) in Keys(records);
      SameKey(records[i], record);
    }
    assert forall i :: 0 <= i < |records| ==> stages[i] == Stages(records)[i];
  }

  /** One part, cut at its first tab and checked. */
  method CutRecord(part: Text) returns (r: Option<Record>)
    ensures r == TakeRecord([part])
    ensures r.Some? && NUL !in part ==> ValidRecord(r.value)
  {
    var cut := IndexByte(part, TAB);
    if cut == |part| || cut + 1 == |part| {
      return None;
    }
    var metadata, path := part[..cut], part[cut + 1..];
    var fields := Fields(metadata);
    if |fields| != 3 || !ValidMode(fields[0]) || !ValidObjectId(fields[1]) || !ValidStage(fields[2]) {
      return None;
    }
    r := Some(Record(metadata, path));
  }

  /** Reading on from an index, one part is one record. */
  lemma RecordAt(parts: seq<Text>, index: nat)
    requires index < |parts|
    ensures var first := TakeRecord([parts[index]]);
            ReadAll(TakeRecord, PrintRecord, parts[index..])
            == if first.None? then None else After([first.value], ReadAll(TakeRecord, PrintRecord, parts[index + 1..]))
  {
    RecordCodec();
    ReadFirst(TakeRecord, PrintRecord, parts, index);
    assert parts[index..][0] == [parts[index]][0];
  }

  /** The loop of parseIndexStagesZ. */
  method ReadStages(parts: seq<Text>) returns (r: Option<seq<IndexStage>>)
    requires NULFree(parts)
    ensures var all := ReadAll(TakeRecord, PrintRecord, parts);
            if all.None? then r == None
            else ValidRecords(all.value) ==>
                   r == if DistinctStages(Stages(all.value)) then Some(Stages(all.value)) else None
  {
    var stages: seq<IndexStage> := [];
    var seen: set<Text> := {};
    ghost var records: seq<Record> := [];
    AfterNothing(ReadAll(TakeRecord, PrintRecord, parts));
    assert parts[0..] == parts;
    for index := 0 to |parts|
      invariant ReadAll(TakeRecord, PrintRecord, parts) == After(records, ReadAll(TakeRecord, PrintRecord, parts[index..]))
      invariant ValidRecords(records) && stages == Stages(records) && DistinctStages(stages)
      invariant seen == Keys(records)
    {
      assert parts[index] in parts;
      ghost var rest := ReadAll(TakeRecord, PrintRecord, parts[index + 1..]);
      var cut := CutRecord(parts[index]);
      RecordAt(parts, index);
      if cut.None? {
        return None;
      }
      var record := cut.value;
      AfterAfter(records, record, rest);
      if Key(record) in seen {
        Repeated(records, record, rest);
        return None;
      }
      Extended(records, record);
      seen := seen + {Key(record)};
      records := records + [record];
      stages := stages + [Stage(record)];
    }
    assert parts[|parts|..] == [] && records + [] == records;
    r := Some(stages);
  }

  // ---------------------------------------------------------------- the round trip

  /** What `git ls-files --stage -z` prints. */
  predicate ValidIndexStage(e: IndexStage) {
    ValidMode(e.mode) && ValidObjectId(e.oid) && e.stage <= 3 && e.path != [] && NUL !in e.path
  }

  /** Mode, object id and stage each have their own form. */
  lemma IndexStagesExactly(e: IndexStage)
    ensures ValidIndexStage(e)
            <==> && |e.mode| == 6 && (forall b :: b in e.mode ==> b as int as char in "01234567")
                 && |e.oid| in {40, 64} && (forall b :: b in e.oid ==> HexDigit(b as int as char))
                 && e.stage in {0, 1, 2, 3} && e.path != [] && NUL !in e.path
  {
    ModesExactly(e.mode);
    ObjectIdsExactly(e.oid);
  }

  function Canonical(e: IndexStage): Record
    requires e.stage <= 3
  {
    Record(e.mode + [SPACE] + (e.oid + [SPACE] + [DigitOf(e.stage)]), e.path)
  }

  /** Modes, object ids and stage digits are words without tab or NUL. */
  lemma FieldsAreWords(e: IndexStage)
    requires ValidIndexStage(e)
    ensures Word(e.mode) && Word(e.oid) && Word([DigitOf(e.stage)])
    ensures forall b :: b in e.mode || b in e.oid ==> b != TAB && b != NUL
  {}

  lemma ThreeFields(mode: Text, oid: Text, stage: Text)
    requires Word(mode) && Word(oid) && Word(stage)
    ensures Fields(mode + [SPACE] + (oid + [SPACE] + stage)) == [mode, oid, stage]
  {
    FirstField(mode, oid + [SPACE] + stage);
    FirstField(oid, stage);
    FirstField(stage, []);
  }

  lemma CanonicalIsValid(e: IndexStage)
    requires ValidIndexStage(e)
    ensures ValidRecord(Canonical(e)) && Stage(Canonical(e)) == e
  {
    FieldsAreWords(e);
    ThreeFields(e.mode, e.oid, [DigitOf(e.stage)]);
    CanonicalIsClean(e);
  }

  lemma CanonicalIsClean(e: IndexStage)
    requires e.stage <= 3 && forall b :: b in e.mode || b in e.oid ==> b != TAB && b != NUL
    ensures TAB !in Canonical(e).metadata && NUL !in Canonical(e).metadata
  {}

  ghost predicate ValidIndex(stages: seq<IndexStage>) {
    (forall i :: 0 <= i < |stages| ==> ValidIndexStage(stages[i])) && DistinctStages(stages)
  }

  ghost function CanonicalRecords(stages: seq<IndexStage>): (records: seq<Record>)
    requires ValidIndex(stages)
    ensures ValidRecords(records) && Stages(records) == stages
  {
    var records := seq(|stages|, i requires 0 <= i < |stages| => Canonical(stages[i]));
    assert forall i :: 0 <= i < |stages| ==> ValidRecord(records[i]) && Stage(records[i]) == stages[i] by {
      forall i | 0 <= i < |stages|
        ensures ValidRecord(records[i]) && Stage(records[i]) == stages[i]
      {
        CanonicalIsValid(stages[i]);
      }
    }
    records
  }

  /** Printing and parsing an index is the identity, whatever bytes the paths hold. */
  lemma IndexRoundTrip(stages: seq<IndexStage>)
    requires ValidIndex(stages)
    ensures ParsedIndex(PrintRecords(CanonicalRecords(stages))) == Some(stages)
  {
    RecordCodec();
    var records := CanonicalRecords(stages);
    ReadsExactlyWhatIsPrinted(TakeRecord, PrintRecord, ValidRecord, PrintRecords(records), records);
  }
}
