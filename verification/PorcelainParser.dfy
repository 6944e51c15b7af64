/** parsePorcelainV2Z: space-separated records whose last field, the path, may itself contain spaces. */
module PorcelainParser {
  import opened Basics
  import opened Records
  import opened ConflictParser

  const ORDINARY: byte := 0x31
  const MOVED: byte := 0x32
  const UNMERGED: byte := 0x75

  /** All fields of a record, and the original path that follows a renamed one. */
  datatype Record = Record(fields: seq<Text>, original: Text)

  /** What the parser keeps. */
  datatype Entry = Entry(recordType: byte, xy: Text, path: Text, originalPath: Text)

  function Arity(kind: byte): nat {
    if kind == ORDINARY then 9 else if kind == MOVED then 10 else if kind == UNMERGED then 11 else 0
  }

  /** validPorcelainFields */
  predicate ValidFields(fields: seq<Text>, oids: seq<nat>)
    requires |fields| >= 2 && forall k :: k in oids ==> k < |fields|
  {
    |fields[1]| == 2 && fields[|fields| - 1] != [] && forall k :: k in oids ==> ValidObjectId(fields[k])
  }

  function ObjectIdFields(kind: byte): seq<nat> {
    if kind == UNMERGED then [7, 8, 9] else [6, 7]
  }

  /** validRenameScore */
  predicate ValidRenameScore(value: Text) {
    |value| == 4 && (value[0] == RENAMED || value[0] == COPIED) && ValidSimilarityScore(value[1..])
  }

  /** The checks the parser makes on the fields of a record of the given kind. */
  predicate Checked(kind: byte, fields: seq<Text>) {
    && (kind == ORDINARY || kind == MOVED || kind == UNMERGED)
    && |fields| == Arity(kind)
    && ValidFields(fields, ObjectIdFields(kind))
    && (kind == MOVED ==> ValidRenameScore(fields[8]))
  }

  predicate ValidRecord(r: Record) {
    && r.fields != [] && |r.fields[0]| == 1
    && var kind := r.fields[0][0];
       && Checked(kind, r.fields)
       && Splits(r.fields, SPACE, Arity(kind))
       && NUL !in Join(r.fields, SPACE)
       && (kind == MOVED <==> r.original != []) && NUL !in r.original
  }

  function PrintRecord(r: Record): seq<Text> {
    [Join(r.fields, SPACE)] + if r.original == [] then [] else [r.original]
  }

  function TakeRecord(parts: seq<Text>): Option<Record> {
    if parts == [] || |parts[0]| < 3 || parts[0][1] != SPACE then None
    else
      var kind := parts[0][0];
      var fields := SplitN(parts[0], SPACE, Arity(kind));
      if !Checked(kind, fields) then None
      else if kind != MOVED then Some(Record(fields, []))
      else if |parts| < 2 || parts[1] == [] then None
      else Some(Record(fields, parts[1]))
  }

  /** A record that starts with one byte and a space has that byte as its first field. */
  lemma FirstIsKind(part: Text, n: int)
    requires |part| >= 2 && part[1] == SPACE && part[0] != SPACE && n != 1
    ensures SplitN(part, SPACE, n)[0] == [part[0]]
  {
    assert part == [part[0]] + [SPACE] + part[2..];
    FirstSeparator([part[0]], SPACE, part[2..]);
    assert part[..1] == [part[0]];
  }

  /** Conversely, joined fields of a valid record start with the kind and a space. */
  lemma KindIsFirst(fields: seq<Text>)
    requires |fields| >= 3 && |fields[0]| == 1
    ensures |Join(fields, SPACE)| >= 3
    ensures Join(fields, SPACE)[0] == fields[0][0] && Join(fields, SPACE)[1] == SPACE
  {
    assert Join(fields[1..], SPACE) == fields[1] + [SPACE] + Join(fields[2..], SPACE);
  }

  lemma TakenIsPrinted(parts: seq<Text>)
    requires TakeRecord(parts).Some?
    ensures var r := TakeRecord(parts).value;
            && Join(r.fields, SPACE) == parts[0] && Splits(r.fields, SPACE, Arity(parts[0][0]))
            && r.fields[0] == [parts[0][0]] && Checked(parts[0][0], r.fields)
            && (parts[0][0] == MOVED <==> r.original != []) && (r.original != [] ==> |parts| > 1 && parts[1] == r.original)
  {
    JoinSplit(parts[0], SPACE, Arity(parts[0][0]));
    FirstIsKind(parts[0], Arity(parts[0][0]));
  }

  lemma TakenIsValid(parts: seq<Text>)
    requires TakeRecord(parts).Some?
    ensures PrintRecord(TakeRecord(parts).value) <= parts
    ensures NULFree(PrintRecord(TakeRecord(parts).value)) ==> ValidRecord(TakeRecord(parts).value)
  {
    var r := TakeRecord(parts).value;
    TakenIsPrinted(parts);
    assert Join(r.fields, SPACE) in PrintRecord(r);
    assert r.original != [] ==> r.original in PrintRecord(r);
  }

  lemma ValidIsTaken(r: Record, parts: seq<Text>)
    requires ValidRecord(r) && PrintRecord(r) <= parts
    ensures TakeRecord(parts) == Some(r)
  {
    var kind := r.fields[0][0];
    assert parts[0] == PrintRecord(r)[0];
    assert kind == MOVED ==> parts[1] == PrintRecord(r)[1];
    KindIsFirst(r.fields);
    SplitJoin(r.fields, SPACE, Arity(kind));
  }

  lemma RecordCodec()
    ensures Codec(TakeRecord, PrintRecord, ValidRecord)
  {
    forall parts | TakeRecord(parts).Some?
      ensures PrintRecord(TakeRecord(parts).value) <= parts
      ensures NULFree(PrintRecord(TakeRecord(parts).value)) ==> ValidRecord(TakeRecord(parts).value)
    {
      TakenIsValid(parts);
    }
    forall r, parts | ValidRecord(r) && PrintRecord(r) <= parts
      ensures TakeRecord(parts) == Some(r)
    {
      ValidIsTaken(r, parts);
    }
  }

  function Project(r: Record): Entry
    requires ValidRecord(r)
  {
    Entry(r.fields[0][0], r.fields[1], r.fields[|r.fields| - 1], r.original)
  }

  // ---------------------------------------------------------------- the three kinds of records

  /** `1 XY sub mH mI mW hH hI path` */
  lemma OrdinaryRecord(xy: Text, sub: Text, modes: (Text, Text, Text), head: Text, index: Text, path: Text)
    ensures var r := Record([[0x31], xy, sub, modes.0, modes.1, modes.2, head, index, path], []);
            && (Checked(0x31, r.fields) <==> |xy| == 2 && ValidObjectId(head) && ValidObjectId(index) && path != [])
            && (ValidRecord(r) ==> Project(r) == Entry(0x31, xy, path, []))
  {
    var fields := [[0x31], xy, sub, modes.0, modes.1, modes.2, head, index, path];
    assert ValidFields(fields, [6, 7]) <==> |fields[1]| == 2 && fields[8] != [] && ValidObjectId(fields[6]) && ValidObjectId(fields[7]) by {
      assert 6 in [6, 7] && 7 in [6, 7];
    }
  }

  /** `2 XY sub mH mI mW hH hI Xscore path`, and the original path after it */
  lemma MovedRecord(xy: Text, sub: Text, modes: (Text, Text, Text), head: Text, index: Text, score: Text, path: Text, original: Text)
    ensures var r := Record([[0x32], xy, sub, modes.0, modes.1, modes.2, head, index, score, path], original);
            && (Checked(0x32, r.fields)
                <==> |xy| == 2 && ValidObjectId(head) && ValidObjectId(index) && path != []
                     && exists n :: 0 <= n <= 100 && (score == ['R' as byte] + Digits(n) || score == ['C' as byte] + Digits(n)))
            && (ValidRecord(r) ==> original != [] && Project(r) == Entry(0x32, xy, path, original))
  {
    var fields := [[0x32], xy, sub, modes.0, modes.1, modes.2, head, index, score, path];
    assert ValidFields(fields, [6, 7]) <==> |fields[1]| == 2 && fields[9] != [] && ValidObjectId(fields[6]) && ValidObjectId(fields[7]) by {
      assert 6 in [6, 7] && 7 in [6, 7];
    }
    RenameScoresExactly(score);
  }

  lemma RenameScoresExactly(score: Text)
    ensures ValidRenameScore(score)
            <==> exists n :: 0 <= n <= 100 && (score == ['R' as byte] + Digits(n) || score == ['C' as byte] + Digits(n))
  {
    if score != [] {
      ScoresExactly(score[1..]);
      assert score == [score[0]] + score[1..];
    }
    if n :| 0 <= n <= 100 && (score == ['R' as byte] + Digits(n) || score == ['C' as byte] + Digits(n)) {
      assert score[1..] == Digits(n);
    }
    if ValidRenameScore(score) {
      var n :| 0 <= n <= 100 && score[1..] == Digits(n);
    }
  }

  /** `u XY sub m1 m2 m3 mW h1 h2 h3 path` */
  lemma UnmergedRecord(xy: Text, sub: Text, modes: (Text, Text, Text, Text), oids: (Text, Text, Text), path: Text)
    ensures var r := Record([[0x75], xy, sub, modes.0, modes.1, modes.2, modes.3, oids.0, oids.1, oids.2, path], []);
            && (Checked(0x75, r.fields)
                <==> |xy| == 2 && ValidObjectId(oids.0) && ValidObjectId(oids.1) && ValidObjectId(oids.2) && path != [])
            && (ValidRecord(r) ==> Project(r) == Entry(0x75, xy, path, []))
  {
    var fields := [[0x75], xy, sub, modes.0, modes.1, modes.2, modes.3, oids.0, oids.1, oids.2, path];
    assert ValidFields(fields, [7, 8, 9])
      <==> |fields[1]| == 2 && fields[10] != [] && ValidObjectId(fields[7]) && ValidObjectId(fields[8]) && ValidObjectId(fields[9]) by {
      assert 7 in [7, 8, 9] && 8 in [7, 8, 9] && 9 in [7, 8, 9];
    }
  }

  ghost predicate ValidRecords(records: seq<Record>) {
    forall r :: r in records ==> ValidRecord(r)
  }

  ghost function Projected(records: seq<Record>): seq<Entry>
    requires ValidRecords(records)
  {
    seq(|records|, i requires 0 <= i < |records| => Project(records[i]))
  }

  function PrintRecords(records: seq<Record>): Text {
    Terminated(PrintAll(PrintRecord, records))
  }

  ghost predicate Prints(data: Text, entries: seq<Entry>) {
    exists records :: ValidRecords(records) && PrintRecords(records) == data && Projected(records) == entries
  }

  /** parsePorcelainV2Z accepts exactly the printed lists of valid records, and returns their projection. */
  method ParsePorcelain(data: Text) returns (r: Option<seq<Entry>>)
    ensures r.Some? ==> Prints(data, r.value)
    ensures forall records :: ValidRecords(records) && PrintRecords(records) == data ==> r == Some(Projected(records))
  {
    RecordCodec();
    forall records
      ensures Read(TakeRecord, PrintRecord, data) == Some(records) <==> ValidRecords(records) && PrintRecords(records) == data
    {
      ReadsExactlyWhatIsPrinted(TakeRecord, PrintRecord, ValidRecord, data, records);
    }
    var split := SplitNULTerminated(data);
    if split.None? {
      return None;
    }
    SplitTerminated(data, split.value);
    WhatIsReadIsValid(TakeRecord, PrintRecord, ValidRecord, split.value);
    r := ReadEntries(split.value);
  }

  /** The record at an index, checked by its first byte. */
  method CheckRecord(parts: seq<Text>, index: nat) returns (r: Option<Record>)
    requires index < |parts|
    ensures r == TakeRecord(parts[index..])
  {
    var record := parts[index];
    assert parts[index..][0] == record;
    assert index + 1 < |parts| ==> parts[index..][1] == parts[index + 1];
    if |record| < 3 || record[1] != SPACE {
      return None;
    }
    var kind := record[0];
    if kind == ORDINARY {
      var fields := SplitN(record, SPACE, 9);
      if |fields| != 9 || !ValidFields(fields, [6, 7]) {
        return None;
      }
      r := Some(Record(fields, []));
    } else if kind == MOVED {
      var fields := SplitN(record, SPACE, 10);
      if |fields| != 10 || index + 1 >= |parts| || parts[index + 1] == [] || !ValidFields(fields, [6, 7]) || !ValidRenameScore(fields[8]) {
        return None;
      }
      r := Some(Record(fields, parts[index + 1]));
    } else if kind == UNMERGED {
      var fields := SplitN(record, SPACE, 11);
      if |fields| != 11 || !ValidFields(fields, [7, 8, 9]) {
        return None;
      }
      r := Some(Record(fields, []));
    } else {
      return None;
    }
  }

  /** The record taken at an index, and what is left after it. */
  lemma TakenAt(parts: seq<Text>, index: nat)
    requires NULFree(parts) && index < |parts|
    ensures TakeRecord(parts[index..]).None? ==> ReadAll(TakeRecord, PrintRecord, parts[index..]) == None
    ensures TakeRecord(parts[index..]).Some? ==>
              var r := TakeRecord(parts[index..]).value;
              var used := if r.original == [] then 1 else 2;
              && ValidRecord(r) && index + used <= |parts|
              && ReadAll(TakeRecord, PrintRecord, parts[index..])
                 == After([r], ReadAll(TakeRecord, PrintRecord, parts[index + used..]))
  {
    ReadFromIndex(parts, index);
    if TakeRecord(parts[index..]).Some? {
      TakenIsValid(parts[index..]);
      PartsOfTail(parts, index, PrintRecord(TakeRecord(parts[index..]).value));
    }
  }

  lemma ReadFromIndex(parts: seq<Text>, index: nat)
    requires index < |parts|
    ensures TakeRecord(parts[index..]).None? ==> ReadAll(TakeRecord, PrintRecord, parts[index..]) == None
    ensures TakeRecord(parts[index..]).Some? ==>
              var r := TakeRecord(parts[index..]).value;
              index + |PrintRecord(r)| <= |parts|
              && ReadAll(TakeRecord, PrintRecord, parts[index..]) == After([r], ReadAll(TakeRecord, PrintRecord, parts[index + |PrintRecord(r)|..]))
  {
    RecordCodec();
    ReadFirst(TakeRecord, PrintRecord, parts, index);
  }

  lemma PartsOfTail(parts: seq<Text>, index: nat, taken: seq<Text>)
    requires NULFree(parts) && index <= |parts| && taken <= parts[index..]
    ensures NULFree(taken)
  {
    forall part | part in taken
      ensures part in parts
    {
      assert part in parts[index..];
    }
  }

  lemma ProjectedExtends(records: seq<Record>, r: Record)
    requires ValidRecords(records) && ValidRecord(r)
    ensures ValidRecords(records + [r]) && Projected(records + [r]) == Projected(records) + [Project(r)]
  {}

  /** The loop of parsePorcelainV2Z: a renamed record takes one more part. */
  method ReadEntries(parts: seq<Text>) returns (r: Option<seq<Entry>>)
    requires NULFree(parts)
    ensures var all := ReadAll(TakeRecord, PrintRecord, parts);
            if all.None? then r == None else ValidRecords(all.value) ==> r == Some(Projected(all.value))
  {
    var entries: seq<Entry> := [];
    ghost var records: seq<Record> := [];
    AfterNothing(ReadAll(TakeRecord, PrintRecord, parts));
    assert parts[0..] == parts;
    var index := 0;
    while index < |parts|
      invariant 0 <= index <= |parts|
      invariant ReadAll(TakeRecord, PrintRecord, parts) == After(records, ReadAll(TakeRecord, PrintRecord, parts[index..]))
      invariant ValidRecords(records) && entries == Projected(records)
    {
      var checked := CheckRecord(parts, index);
      TakenAt(parts, index);
      if checked.None? {
        return None;
      }
      var record := checked.value;
      ProjectedExtends(records, record);
      var used := if record.original == [] then 1 else 2;
      AfterAfter(records, record, ReadAll(TakeRecord, PrintRecord, parts[index + used..]));
      records := records + [record];
      entries := entries + [Project(record)];
      index := index + used;
    }
    assert parts[index..] == [] && records + [] == records;
    r := Some(entries);
  }
}
