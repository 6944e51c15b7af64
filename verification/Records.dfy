/** NUL-terminated records and separated fields, with the printers they undo. */
module Records {
  import opened Basics

  const NUL: byte := 0

  /** Index of the first `sep`, or the length of the text. */
  function IndexByte(text: Text, sep: byte): (i: nat)
    ensures i <= |text| && sep !in text[..i]
    ensures i < |text| <==> sep in text
    ensures i < |text| ==> text[i] == sep
  {
    if text == [] || text[0] == sep then 0 else 1 + IndexByte(text[1..], sep)
  }

  /** bytes.SplitN: at most n pieces, the last one unsplit; a negative n sets no limit. */
  function SplitN(text: Text, sep: byte, n: int): (pieces: seq<Text>)
    ensures pieces != []
    decreases |text|
  {
    var i := IndexByte(text, sep);
    if n == 1 || i == |text| then [text] else [text[..i]] + SplitN(text[i + 1..], sep, n - 1)
  }

  function Join(pieces: seq<Text>, sep: byte): Text {
    if pieces == [] then []
    else if |pieces| == 1 then pieces[0]
    else pieces[0] + [sep] + Join(pieces[1..], sep)
  }

  /** Only the last piece may contain the separator, and only when the limit n was reached. */
  predicate Splits(pieces: seq<Text>, sep: byte, n: int) {
    && pieces != []
    && if |pieces| == 1 then n == 1 || sep !in pieces[0]
       else n != 1 && sep !in pieces[0] && Splits(pieces[1..], sep, n - 1)
  }

  /** The pieces are a cut of the text at separators: joining them gives it back. */
  lemma {:induction false} JoinSplit(text: Text, sep: byte, n: int)
    ensures Splits(SplitN(text, sep, n), sep, n)
    ensures Join(SplitN(text, sep, n), sep) == text
    decreases |text|
  {
    var i := IndexByte(text, sep);
    if n != 1 && i < |text| {
      var rest := SplitN(text[i + 1..], sep, n - 1);
      JoinSplit(text[i + 1..], sep, n - 1);
      JoinCons(text[..i], rest, sep);
      CutAt(text, i);
    } else if n != 1 {
      CutAt(text, i);
    }
  }

  lemma CutAt(text: Text, i: nat)
    requires i <= |text|
    ensures i < |text| ==> text == text[..i] + [text[i]] + text[i + 1..]
    ensures i == |text| ==> text[..i] == text
  {}

  lemma JoinCons(first: Text, rest: seq<Text>, sep: byte)
    requires rest != []
    ensures Join([first] + rest, sep) == first + [sep] + Join(rest, sep)
    ensures ([first] + rest)[1..] == rest
  {}

  /** Joining pieces and splitting again gives the same pieces. */
  lemma {:induction false} SplitJoin(pieces: seq<Text>, sep: byte, n: int)
    requires Splits(pieces, sep, n)
    ensures SplitN(Join(pieces, sep), sep, n) == pieces
    decreases |pieces|
  {
    if |pieces| == 1 {
      NoSeparator(pieces[0], sep, n);
    } else {
      var first, rest := pieces[0], pieces[1..];
      SplitJoin(rest, sep, n - 1);
      JoinCons(first, rest, sep);
      assert pieces == [first] + rest;
      FirstSeparator(first, sep, Join(rest, sep));
      SplitAt(first, sep, Join(rest, sep), n);
    }
  }

  lemma NoSeparator(text: Text, sep: byte, n: int)
    requires n == 1 || sep !in text
    ensures SplitN(text, sep, n) == [text]
  {}

  lemma SplitAt(first: Text, sep: byte, rest: Text, n: int)
    requires n != 1 && IndexByte(first + [sep] + rest, sep) == |first|
    requires (first + [sep] + rest)[..|first|] == first && (first + [sep] + rest)[|first| + 1..] == rest
    ensures SplitN(first + [sep] + rest, sep, n) == [first] + SplitN(rest, sep, n - 1)
  {}

  /** Splitting after a separator-free start cuts exactly there. */
  lemma {:induction false} FirstSeparator(first: Text, sep: byte, rest: Text)
    requires sep !in first
    ensures IndexByte(first + [sep] + rest, sep) == |first|
    ensures (first + [sep] + rest)[..|first|] == first && (first + [sep] + rest)[|first| + 1..] == rest
  {
    var text := first + [sep] + rest;
    assert text[..|first|] == first;
    assert text[|first| + 1..] == rest;
    if first != [] {
      FirstSeparator(first[1..], sep, rest);
      assert text[1..] == first[1..] + [sep] + rest;
    }
  }

  // ---------------------------------------------------------------- NUL-terminated lists

  function Terminated(parts: seq<Text>): Text {
    if parts == [] then [] else parts[0] + [NUL] + Terminated(parts[1..])
  }

  /** splitNULTerminated; None is malformed output. */
  function SplitNULTerminated(data: Text): Option<seq<Text>> {
    if data == [] then Some([])
    else if data[|data| - 1] != NUL then None
    else Some(SplitN(data[..|data| - 1], NUL, -1))
  }

  ghost predicate NULFree(parts: seq<Text>) {
    forall part :: part in parts ==> NUL !in part
  }

  lemma {:induction false} TerminatedIsJoined(parts: seq<Text>)
    requires parts != []
    ensures Terminated(parts) == Join(parts, NUL) + [NUL]
  {
    if |parts| == 1 {
      assert Terminated(parts[1..]) == [];
    } else {
      TerminatedIsJoined(parts[1..]);
    }
  }

  lemma {:induction false} UnlimitedSplit(parts: seq<Text>, n: int)
    requires n < 0 && parts != []
    ensures Splits(parts, NUL, n) <==> NULFree(parts)
    decreases |parts|
  {
    if |parts| > 1 {
      UnlimitedSplit(parts[1..], n - 1);
      assert parts == [parts[0]] + parts[1..];
    }
  }

  /** Splitting accepts exactly what was printed, and gives exactly that list of parts back. */
  lemma SplitTerminated(data: Text, parts: seq<Text>)
    ensures SplitNULTerminated(data) == Some(parts) <==> NULFree(parts) && Terminated(parts) == data
  {
    if SplitNULTerminated(data) == Some(parts) && data != [] {
      var body := data[..|data| - 1];
      JoinSplit(body, NUL, -1);
      UnlimitedSplit(parts, -1);
      TerminatedIsJoined(parts);
      assert data == body + [NUL];
    }
    if NULFree(parts) && Terminated(parts) == data && parts != [] {
      TerminatedIsJoined(parts);
      UnlimitedSplit(parts, -1);
      SplitJoin(parts, NUL, -1);
      assert data[..|data| - 1] == Join(parts, NUL);
    }
  }

  // ---------------------------------------------------------------- lists of multi-part entries

  /** How entries are taken off the front of a list of parts, against how they are printed. */
  ghost predicate Format<E(!new)>(take: seq<Text> -> Option<E>, print_: E -> seq<Text>) {
    && (forall e :: print_(e) != [])
    && (forall parts :: take(parts).Some? ==> print_(take(parts).value) <= parts)
  }

  /** An entry that can be read back whatever follows it. */
  ghost predicate Readable<E(!new)>(take: seq<Text> -> Option<E>, print_: E -> seq<Text>, e: E) {
    forall parts :: print_(e) <= parts ==> take(parts) == Some(e)
  }

  function PrintAll<E>(print_: E -> seq<Text>, entries: seq<E>): seq<Text> {
    if entries == [] then [] else print_(entries[0]) + PrintAll(print_, entries[1..])
  }

  /** Reading a whole list: entry after entry until no part is left. */
  function ReadAll<E>(take: seq<Text> -> Option<E>, print_: E -> seq<Text>, parts: seq<Text>): Option<seq<E>>
    decreases |parts|
  {
    if parts == [] then Some([])
    else
      var first := take(parts);
      if first.None? || print_(first.value) == [] || !(print_(first.value) <= parts) then None
      else After([first.value], ReadAll(take, print_, parts[|print_(first.value)|..]))
  }

  /** In a format, whatever is taken is followed by the rest of the parts. */
  lemma ReadFirst<E(!new)>(take: seq<Text> -> Option<E>, print_: E -> seq<Text>, parts: seq<Text>, index: nat)
    requires Format(take, print_) && index < |parts|
    ensures take(parts[index..]).None? ==> ReadAll(take, print_, parts[index..]) == None
    ensures take(parts[index..]).Some? ==>
              var e := take(parts[index..]).value;
              && 0 < |print_(e)| <= |parts| - index
              && ReadAll(take, print_, parts[index..]) == After([e], ReadAll(take, print_, parts[index + |print_(e)|..]))
  {
    var rest := parts[index..];
    if take(rest).Some? {
      var e := take(rest).value;
      assert print_(e) != [] && print_(e) <= rest;
      assert rest[|print_(e)|..] == parts[index + |print_(e)|..];
    }
  }

  function After<E>(entries: seq<E>, rest: Option<seq<E>>): Option<seq<E>> {
    if rest.None? then None else Some(entries + rest.value)
  }

  lemma AfterNothing<E>(rest: Option<seq<E>>)
    ensures After([], rest) == rest
  {
    if rest.Some? {
      assert [] + rest.value == rest.value;
    }
  }

  lemma AfterAfter<E>(a: seq<E>, e: E, rest: Option<seq<E>>)
    ensures After(a, After([e], rest)) == After(a + [e], rest)
  {
    if rest.Some? {
      assert a + ([e] + rest.value) == a + [e] + rest.value;
    }
  }

  lemma {:induction false} ReadPrints<E(!new)>(take: seq<Text> -> Option<E>, print_: E -> seq<Text>, parts: seq<Text>)
    requires Format(take, print_)
    ensures ReadAll(take, print_, parts).Some? ==> PrintAll(print_, ReadAll(take, print_, parts).value) == parts
    ensures ReadAll(take, print_, parts).Some? ==>
              forall e :: e in ReadAll(take, print_, parts).value ==> exists rest :: take(rest) == Some(e)
    decreases |parts|
  {
    if parts != [] && take(parts).Some? {
      var e := take(parts).value;
      var rest := parts[|print_(e)|..];
      ReadPrints(take, print_, rest);
      if ReadAll(take, print_, parts).Some? {
        var all := ReadAll(take, print_, parts).value;
        assert all[1..] == ReadAll(take, print_, rest).value;
        assert parts == print_(e) + rest;
      }
    }
  }

  lemma {:induction false} PrintReads<E(!new)>(take: seq<Text> -> Option<E>, print_: E -> seq<Text>, entries: seq<E>)
    requires Format(take, print_)
    requires forall e :: e in entries ==> Readable(take, print_, e)
    ensures ReadAll(take, print_, PrintAll(print_, entries)) == Some(entries)
    decreases |entries|
  {
    if entries != [] {
      var parts := PrintAll(print_, entries);
      PrintReads(take, print_, entries[1..]);
      assert Readable(take, print_, entries[0]);
      assert print_(entries[0]) <= parts;
      assert parts[|print_(entries[0])|..] == PrintAll(print_, entries[1..]);
      assert [entries[0]] + entries[1..] == entries;
    }
  }

  /** Reading NUL-terminated output as a list of entries. */
  function Read<E>(take: seq<Text> -> Option<E>, print_: E -> seq<Text>, data: Text): Option<seq<E>> {
    var parts := SplitNULTerminated(data);
    if parts.None? then None else ReadAll(take, print_, parts.value)
  }

  /** The valid entries are exactly those that are read, and they read back whatever follows them. */
  ghost predicate Codec<E(!new)>(take: seq<Text> -> Option<E>, print_: E -> seq<Text>, valid: E -> bool) {
    && Format(take, print_)
    && (forall e :: valid(e) ==> Readable(take, print_, e) && NULFree(print_(e)))
    && (forall parts :: take(parts).Some? && NULFree(print_(take(parts).value)) ==> valid(take(parts).value))
  }

  lemma {:induction false} PrintedNULFree<E>(print_: E -> seq<Text>, entries: seq<E>)
    ensures NULFree(PrintAll(print_, entries)) <==> forall e :: e in entries ==> NULFree(print_(e))
    decreases |entries|
  {
    if entries != [] {
      PrintedNULFree(print_, entries[1..]);
      assert entries == [entries[0]] + entries[1..];
    }
  }

  lemma WhatIsReadIsValid<E(!new)>(take: seq<Text> -> Option<E>, print_: E -> seq<Text>, valid: E -> bool, parts: seq<Text>)
    requires Codec(take, print_, valid) && NULFree(parts)
    ensures ReadAll(take, print_, parts).Some? ==> forall e :: e in ReadAll(take, print_, parts).value ==> valid(e)
  {
    ReadPrints(take, print_, parts);
    if ReadAll(take, print_, parts).Some? {
      PrintedNULFree(print_, ReadAll(take, print_, parts).value);
    }
  }

  /** Output is read as a list exactly when it is that list of valid entries, printed. */
  lemma ReadsExactlyWhatIsPrinted<E(!new)>(
      take: seq<Text> -> Option<E>, print_: E -> seq<Text>, valid: E -> bool, data: Text, entries: seq<E>)
    requires Codec(take, print_, valid)
    ensures Read(take, print_, data) == Some(entries)
            <==> (forall e :: e in entries ==> valid(e)) && Terminated(PrintAll(print_, entries)) == data
  {
    var printed := PrintAll(print_, entries);
    PrintedNULFree(print_, entries);
    SplitTerminated(data, printed);
    if Read(take, print_, data) == Some(entries) {
      var parts := SplitNULTerminated(data).value;
      ReadPrints(take, print_, parts);
      SplitTerminated(data, parts);
      WhatIsReadIsValid(take, print_, valid, parts);
    }
    if (forall e :: e in entries ==> valid(e)) && Terminated(printed) == data {
      PrintReads(take, print_, entries);
    }
  }
}
