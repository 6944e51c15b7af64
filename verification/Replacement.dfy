/** Replacing the whole configuration: which new base continues which old one. Git settings can only be
    carried along, never written this way. */
module Replacement {
  import opened Basics
  import opened Configuration
  import opened Journal
  import opened Settings

  const NO_GIT := GitFields("", "", false, 0, "")

  /** canonicalGitStatusPath: the directory a path leads to now; None is an error. */
  type Canonical = Path -> Option<Path>

  // ---------------------------------------------------------------- what the matching means

  /** The new base keeps the name of an old one. */
  predicate Named(current: seq<Base>, base: Base) {
    BaseIndex(current, base.name) >= 0
  }

  /** Some new base keeps the name of this old one. */
  ghost predicate Reserved(current: seq<Base>, next: seq<Base>, c: int) {
    exists n :: n in next && BaseIndex(current, n.name) == c
  }

  /** Old bases at the new base's directory that no name has taken. */
  ghost predicate Candidate(current: seq<Base>, next: seq<Base>, canon: Canonical, place: Option<Path>, c: int) {
    0 <= c < |current| && !Reserved(current, next, c) && canon(current[c].path) == place
  }

  ghost predicate OnlyCandidate(current: seq<Base>, next: seq<Base>, canon: Canonical, place: Option<Path>, c: int) {
    && Candidate(current, next, canon, place, c)
    && forall d :: Candidate(current, next, canon, place, d) ==> d == c
  }

  /** The new base has no old name but this old base is the only one it can be. */
  ghost predicate Claims(current: seq<Base>, next: seq<Base>, canon: Canonical, i: int, c: int) {
    && 0 <= i < |next| && !Named(current, next[i])
    && OnlyCandidate(current, next, canon, canon(next[i].path), c)
  }

  /** The new base i continues the old base c: by name, or else as the only claim to the only candidate. */
  ghost predicate Continues(current: seq<Base>, next: seq<Base>, canon: Canonical, i: int, c: int) {
    && 0 <= i < |next| && 0 <= c < |current|
    && if Named(current, next[i]) then BaseIndex(current, next[i].name) == c
       else Claims(current, next, canon, i, c) && forall k :: Claims(current, next, canon, k, c) ==> k == i
  }

  ghost predicate Matching(current: seq<Base>, next: seq<Base>, canon: Canonical, matches: seq<int>) {
    && |matches| == |next|
    && (forall i :: 0 <= i < |next| ==> -1 <= matches[i] < |current|)
    && forall i, c :: 0 <= i < |next| && 0 <= c < |current| ==> (matches[i] == c <==> Continues(current, next, canon, i, c))
  }

  /** The search at this directory meets an old path it cannot resolve before two candidates stop it. */
  ghost predicate Unreadable(current: seq<Base>, next: seq<Base>, canon: Canonical, place: Option<Path>) {
    exists c ::
      && 0 <= c < |current| && !Reserved(current, next, c) && canon(current[c].path).None?
      && forall a, b | 0 <= a < c && 0 <= b < c ::
           Candidate(current, next, canon, place, a) && Candidate(current, next, canon, place, b) ==> a == b
  }

  ghost predicate Unresolvable(current: seq<Base>, next: seq<Base>, canon: Canonical, i: int) {
    && 0 <= i < |next| && !Named(current, next[i])
    && (canon(next[i].path).None? || Unreadable(current, next, canon, canon(next[i].path)))
  }

  predicate UniqueNames(bases: seq<Base>) {
    forall i, k :: 0 <= i < |bases| && 0 <= k < |bases| && bases[i].name == bases[k].name ==> i == k
  }

  /** No old base is continued twice. */
  lemma ContinuesIsInjective(current: seq<Base>, next: seq<Base>, canon: Canonical, i: int, k: int, c: int)
    requires UniqueNames(next)
    requires Continues(current, next, canon, i, c) && Continues(current, next, canon, k, c)
    ensures i == k
  {
    assert Named(current, next[i]) ==> Reserved(current, next, c);
    assert Named(current, next[k]) ==> Reserved(current, next, c);
  }

  /** There is one matching at most. */
  lemma MatchingIsUnique(current: seq<Base>, next: seq<Base>, canon: Canonical, one: seq<int>, other: seq<int>)
    requires Matching(current, next, canon, one) && Matching(current, next, canon, other)
    ensures one == other
  {
    forall i | 0 <= i < |next|
      ensures one[i] == other[i]
    {
      assert one[i] >= 0 ==> Continues(current, next, canon, i, one[i]);
      assert other[i] >= 0 ==> Continues(current, next, canon, i, other[i]);
    }
  }

  // ---------------------------------------------------------------- the order of the lists does not matter

  function Elements(bases: seq<Base>): set<Base> {
    set b | b in bases
  }

  ghost predicate HasName(bases: set<Base>, name: string) {
    exists b :: b in bases && b.name == name
  }

  /** Among sets of bases: an old base at this directory whose name nobody keeps, and the only one. */
  ghost predicate CandidateAmong(current: set<Base>, next: set<Base>, canon: Canonical, place: Option<Path>, c: Base) {
    c in current && !HasName(next, c.name) && canon(c.path) == place
  }

  ghost predicate OnlyCandidateAmong(current: set<Base>, next: set<Base>, canon: Canonical, place: Option<Path>, c: Base) {
    && CandidateAmong(current, next, canon, place, c)
    && forall d :: CandidateAmong(current, next, canon, place, d) ==> d == c
  }

  ghost predicate ClaimsAmong(current: set<Base>, next: set<Base>, canon: Canonical, n: Base, c: Base) {
    n in next && !HasName(current, n.name) && OnlyCandidateAmong(current, next, canon, canon(n.path), c)
  }

  /** What continues what, without any order. */
  ghost predicate ContinuesAmong(current: set<Base>, next: set<Base>, canon: Canonical, n: Base, c: Base) {
    && n in next && c in current
    && if HasName(current, n.name) then c.name == n.name
       else ClaimsAmong(current, next, canon, n, c) && forall m :: ClaimsAmong(current, next, canon, m, c) ==> m == n
  }

  lemma NameIsIndex(bases: seq<Base>, name: string, c: nat)
    requires UniqueNames(bases) && c < |bases|
    ensures BaseIndex(bases, name) == c <==> bases[c].name == name
    ensures BaseIndex(bases, name) >= 0 <==> HasName(Elements(bases), name)
  {
    assert bases[c] in bases;
  }

  lemma CandidatesAlike(current: seq<Base>, next: seq<Base>, canon: Canonical, place: Option<Path>, c: nat)
    requires UniqueNames(current) && c < |current|
    ensures Candidate(current, next, canon, place, c) <==> CandidateAmong(Elements(current), Elements(next), canon, place, current[c])
  {
    forall n | n in next
      ensures BaseIndex(current, n.name) == c <==> n.name == current[c].name
    {
      NameIsIndex(current, n.name, c);
    }
  }

  lemma OnlyCandidatesAlike(current: seq<Base>, next: seq<Base>, canon: Canonical, place: Option<Path>, c: nat)
    requires UniqueNames(current) && c < |current|
    ensures OnlyCandidate(current, next, canon, place, c)
       <==> OnlyCandidateAmong(Elements(current), Elements(next), canon, place, current[c])
  {
    forall d: nat | d < |current|
      ensures Candidate(current, next, canon, place, d) <==> CandidateAmong(Elements(current), Elements(next), canon, place, current[d])
      ensures current[d] == current[c] <==> d == c
    {
      CandidatesAlike(current, next, canon, place, d);
    }
    forall b | CandidateAmong(Elements(current), Elements(next), canon, place, b)
      ensures exists d :: 0 <= d < |current| && current[d] == b
    {}
  }

  lemma ClaimsAlike(current: seq<Base>, next: seq<Base>, canon: Canonical, i: nat, c: nat)
    requires UniqueNames(current) && i < |next| && c < |current|
    ensures Claims(current, next, canon, i, c) <==> ClaimsAmong(Elements(current), Elements(next), canon, next[i], current[c])
  {
    NameIsIndex(current, next[i].name, c);
    OnlyCandidatesAlike(current, next, canon, canon(next[i].path), c);
  }

  /** The matching depends on which bases there are, not on the order in which either list names them. */
  lemma OrderIsIrrelevant(current: seq<Base>, next: seq<Base>, canon: Canonical, i: nat, c: nat)
    requires UniqueNames(current) && UniqueNames(next) && i < |next| && c < |current|
    ensures Continues(current, next, canon, i, c)
       <==> ContinuesAmong(Elements(current), Elements(next), canon, next[i], current[c])
  {
    NameIsIndex(current, next[i].name, c);
    forall k: nat | k < |next|
      ensures Claims(current, next, canon, k, c) <==> ClaimsAmong(Elements(current), Elements(next), canon, next[k], current[c])
      ensures next[k] == next[i] <==> k == i
    {
      ClaimsAlike(current, next, canon, k, c);
    }
    forall m | ClaimsAmong(Elements(current), Elements(next), canon, m, current[c])
      ensures exists k :: 0 <= k < |next| && next[k] == m
    {}
  }

  // ---------------------------------------------------------------- matchReplaceConfigBases

  /** The names first. */
  method MatchNames(current: seq<Base>, next: seq<Base>, matches: array<int>, reserved: array<bool>)
    requires matches.Length == |next| && reserved.Length == |current|
    modifies matches, reserved
    ensures forall i :: 0 <= i < |next| ==> matches[i] == BaseIndex(current, next[i].name)
    ensures forall c :: 0 <= c < |current| ==> reserved[c] == Reserved(current, next, c)
  {
    for c := 0 to |current|
      invariant forall k :: 0 <= k < c ==> !reserved[k]
    {
      reserved[c] := false;
    }
    for i := 0 to |next|
      invariant forall k :: 0 <= k < i ==> matches[k] == BaseIndex(current, next[k].name)
      invariant forall c :: 0 <= c < |current| ==> reserved[c] == Reserved(current, next[..i], c)
    {
      assert next[..i + 1] == next[..i] + [next[i]];
      var exact := BaseIndex(current, next[i].name);
      matches[i] := exact;
      if exact >= 0 {
        reserved[exact] := true;
      }
      assert next[i] in next[..i + 1];
    }
    assert next[..|next|] == next;
  }

  /** The search for the only candidate at a directory; a second candidate stops it. */
  method OnlyCandidateAt(current: seq<Base>, reserved: array<bool>, canon: Canonical, place: Option<Path>, ghost next: seq<Base>)
    returns (ok: bool, unique: int)
    requires reserved.Length == |current| && place.Some?
    requires forall c :: 0 <= c < |current| ==> reserved[c] == Reserved(current, next, c)
    ensures ok <==> !Unreadable(current, next, canon, place)
    ensures -1 <= unique < |current|
    ensures ok ==> forall c :: 0 <= c < |current| ==> (unique == c <==> OnlyCandidate(current, next, canon, place, c))
  {
    ok, unique := true, -1;
    for c := 0 to |current|
      invariant -1 <= unique < c
      invariant unique >= 0 ==> Candidate(current, next, canon, place, unique)
      invariant forall k :: 0 <= k < c && Candidate(current, next, canon, place, k) ==> k == unique
      invariant forall k :: 0 <= k < c && !Reserved(current, next, k) ==> canon(current[k].path).Some?
    {
      if !reserved[c] {
        var here := canon(current[c].path);
        if here.None? {
          return false, -1;
        }
        if here == place {
          if unique >= 0 {
            assert Candidate(current, next, canon, place, unique) && Candidate(current, next, canon, place, c);
            return true, -1;
          }
          unique := c;
        }
      }
    }
  }

  /** The candidate of a new base without an old name. */
  method FindCandidate(current: seq<Base>, next: seq<Base>, canon: Canonical, reserved: array<bool>, i: nat)
    returns (ok: bool, unique: int)
    requires i < |next| && !Named(current, next[i])
    requires reserved.Length == |current| && forall c :: 0 <= c < |current| ==> reserved[c] == Reserved(current, next, c)
    ensures ok <==> !Unresolvable(current, next, canon, i)
    ensures -1 <= unique < |current|
    ensures ok ==> forall c :: 0 <= c < |current| ==> (unique == c <==> Claims(current, next, canon, i, c))
  {
    var place := canon(next[i].path);
    if place.None? {
      return false, -1;
    }
    ok, unique := OnlyCandidateAt(current, reserved, canon, place, next);
  }

  function Count(s: seq<int>, c: int): nat {
    if s == [] then 0
    else Count(s[..|s| - 1], c) + if s[|s| - 1] == c then 1 else 0
  }

  lemma {:induction false} NoOccurrence(s: seq<int>, c: int)
    ensures Count(s, c) == 0 <==> forall k :: 0 <= k < |s| ==> s[k] != c
  {
    if s != [] {
      NoOccurrence(s[..|s| - 1], c);
    }
  }

  lemma {:induction false} OneOccurrence(s: seq<int>, i: nat)
    requires i < |s|
    ensures Count(s, s[i]) == 1 <==> forall k :: 0 <= k < |s| && s[k] == s[i] ==> k == i
  {
    var rest := s[..|s| - 1];
    NoOccurrence(rest, s[i]);
    if i < |rest| {
      assert rest[i] == s[i];
      OneOccurrence(rest, i);
    } else {
      assert forall k :: 0 <= k < |rest| ==> s[k] == rest[k];
    }
  }

  ghost predicate CandidatesAre(current: seq<Base>, next: seq<Base>, canon: Canonical, candidates: seq<int>, upTo: nat) {
    && |candidates| == |next| && upTo <= |next|
    && (forall k :: 0 <= k < |next| ==> -1 <= candidates[k] < |current|)
    && (forall k, c :: 0 <= k < upTo && 0 <= c < |current| ==> (candidates[k] == c <==> Claims(current, next, canon, k, c)))
  }

  ghost predicate ClaimsAre(claims: seq<int>, candidates: seq<int>, upTo: nat) {
    upTo <= |candidates| && forall c :: 0 <= c < |claims| ==> claims[c] == Count(candidates[..upTo], c)
  }

  /** What one round of the collecting loop adds. */
  lemma CandidateRecorded(current: seq<Base>, next: seq<Base>, canon: Canonical, before: seq<int>, claims: seq<int>, i: nat, unique: int)
    requires i < |next| && CandidatesAre(current, next, canon, before, i)
    requires |claims| == |current| && ClaimsAre(claims, before, i) && -1 <= unique < |current|
    requires forall c :: 0 <= c < |current| ==> (unique == c <==> Claims(current, next, canon, i, c))
    ensures CandidatesAre(current, next, canon, before[i := unique], i + 1)
    ensures ClaimsAre(if unique >= 0 then claims[unique := claims[unique] + 1] else claims, before[i := unique], i + 1)
  {
    assert before[i := unique][..i + 1] == before[..i] + [unique];
  }

  lemma TakenExactly(current: seq<Base>, next: seq<Base>, canon: Canonical, candidates: seq<int>, i: nat, c: int)
    requires i < |next| && CandidatesAre(current, next, canon, candidates, |next|) && !Named(current, next[i])
    ensures Continues(current, next, canon, i, c) <==> 0 <= c == candidates[i] && Count(candidates, c) == 1
  {
    OneOccurrence(candidates, i);
    if 0 <= c == candidates[i] {
      assert Claims(current, next, canon, i, c);
      forall k | 0 <= k < |next|
        ensures candidates[k] == c <==> Claims(current, next, canon, k, c)
      {}
    }
  }

  /** A candidate is taken when exactly one new base claims it. */
  method TakeClaims(current: seq<Base>, next: seq<Base>, canon: Canonical, matches: array<int>, candidates: array<int>, claims: array<int>)
    requires matches.Length == candidates.Length == |next| && claims.Length == |current| && matches != candidates && matches != claims
    requires forall k :: 0 <= k < |next| ==> matches[k] == BaseIndex(current, next[k].name)
    requires CandidatesAre(current, next, canon, candidates[..], |next|)
    requires ClaimsAre(claims[..], candidates[..], |next|)
    modifies matches
    ensures forall i :: 0 <= i < |next| ==> -1 <= matches[i] < |current|
    ensures forall i, c :: 0 <= i < |next| && 0 <= c < |current| ==> (matches[i] == c <==> Continues(current, next, canon, i, c))
  {
    for i := 0 to |next|
      invariant forall k :: i <= k < |next| ==> matches[k] == BaseIndex(current, next[k].name)
      invariant forall k :: 0 <= k < i ==> -1 <= matches[k] < |current|
      invariant forall k, c :: 0 <= k < i && 0 <= c < |current| ==> (matches[k] == c <==> Continues(current, next, canon, k, c))
    {
      var candidate := candidates[i];
      assert candidates[..|next|] == candidates[..];
      if !Named(current, next[i]) {
        forall c | 0 <= c < |current| {
          TakenExactly(current, next, canon, candidates[..], i, c);
        }
      }
      if candidate >= 0 {
        assert Claims(current, next, canon, i, candidate);
        if claims[candidate] == 1 {
          matches[i] := candidate;
        }
      }
    }
  }

  /** What each new base without an old name claims, and how often each old base is claimed. */
  method CollectClaims(current: seq<Base>, next: seq<Base>, canon: Canonical, matches: array<int>, reserved: array<bool>,
                       candidates: array<int>, claims: array<int>)
    returns (ok: bool)
    requires matches.Length == candidates.Length == |next| && reserved.Length == claims.Length == |current|
    requires candidates != matches && claims != matches && claims != candidates
    requires forall k :: 0 <= k < |next| ==> matches[k] == BaseIndex(current, next[k].name)
    requires forall c :: 0 <= c < |current| ==> reserved[c] == Reserved(current, next, c)
    requires forall k :: 0 <= k < |next| ==> candidates[k] == -1
    requires forall c :: 0 <= c < |current| ==> claims[c] == 0
    modifies candidates, claims
    ensures ok <==> forall i :: !Unresolvable(current, next, canon, i)
    ensures ok ==> CandidatesAre(current, next, canon, candidates[..], |next|) && ClaimsAre(claims[..], candidates[..], |next|)
  {
    for i := 0 to |next|
      invariant CandidatesAre(current, next, canon, candidates[..], i)
      invariant ClaimsAre(claims[..], candidates[..], i)
      invariant forall k :: 0 <= k < i ==> !Unresolvable(current, next, canon, k)
    {
      var unique;
      ok, unique := true, -1;
      if matches[i] < 0 {
        ok, unique := FindCandidate(current, next, canon, reserved, i);
        if !ok {
          return;
        }
      }
      ghost var recorded := candidates[..][i := unique];
      ghost var counted := if unique >= 0 then claims[..][unique := claims[unique] + 1] else claims[..];
      CandidateRecorded(current, next, canon, candidates[..], claims[..], i, unique);
      candidates[i] := unique;
      if unique >= 0 {
        claims[unique] := claims[unique] + 1;
      }
      assert candidates[..] == recorded && claims[..] == counted;
    }
    ok := true;
  }

  /** matchReplaceConfigBases */
  method MatchReplaceConfigBases(current: seq<Base>, next: seq<Base>, canon: Canonical) returns (result: Option<seq<int>>)
    ensures result.None? <==> exists i :: Unresolvable(current, next, canon, i)
    ensures result.Some? ==> Matching(current, next, canon, result.value)
  {
    var matches, reserved := new int[|next|](_ => -1), new bool[|current|];
    MatchNames(current, next, matches, reserved);
    var candidates, claims := new int[|next|](_ => -1), new int[|current|](_ => 0);
    var ok := CollectClaims(current, next, canon, matches, reserved, candidates, claims);
    if !ok {
      return None;
    }
    TakeClaims(current, next, canon, matches, candidates, claims);
    result := Some(matches[..]);
  }

  // ---------------------------------------------------------------- Git settings are carried, not written

  datatype GitField = Url | Branch | AutoSync | Interval | MessageTemplate

  /** firstGitFieldDifference */
  function FirstGitFieldDifference(current: GitFields, next: GitFields): (field: Option<GitField>)
    ensures field.None? <==> current == next
  {
    if current.url != next.url then Some(Url)
    else if current.branch != next.branch then Some(Branch)
    else if current.autoSync != next.autoSync then Some(AutoSync)
    else if current.intervalMinutes != next.intervalMinutes then Some(Interval)
    else if current.messageTemplate != next.messageTemplate then Some(MessageTemplate)
    else None
  }

  function PreviousGit(current: seq<Base>, match_: int): GitFields {
    if 0 <= match_ < |current| then current[match_].git else NO_GIT
  }

  /** Every new base has the Git settings of the base it continues, or none. */
  ghost predicate Carried(current: seq<Base>, next: seq<Base>, canon: Canonical) {
    && (forall i, c :: Continues(current, next, canon, i, c) ==> next[i].git == current[c].git)
    && (forall i :: 0 <= i < |next| && (forall c :: !Continues(current, next, canon, i, c)) ==> next[i].git == NO_GIT)
  }

  lemma CarriedAlongMatches(current: seq<Base>, next: seq<Base>, canon: Canonical, matches: seq<int>)
    requires Matching(current, next, canon, matches)
    ensures Carried(current, next, canon) <==> forall i :: 0 <= i < |next| ==> next[i].git == PreviousGit(current, matches[i])
  {
    forall i | 0 <= i < |next| && matches[i] >= 0
      ensures Continues(current, next, canon, i, matches[i])
    {}
    forall i, c | Continues(current, next, canon, i, c)
      ensures matches[i] == c
    {}
  }

  method GitFieldsKept(current: seq<Base>, next: seq<Base>, matches: seq<int>) returns (kept: bool)
    requires |matches| == |next|
    ensures kept <==> forall i :: 0 <= i < |next| ==> next[i].git == PreviousGit(current, matches[i])
  {
    for i := 0 to |next|
      invariant forall k :: 0 <= k < i ==> next[k].git == PreviousGit(current, matches[k])
    {
      if FirstGitFieldDifference(PreviousGit(current, matches[i]), next[i].git).Some? {
        return false;
      }
    }
    kept := true;
  }

  /** protectReplaceConfigGitFields; None refuses the new configuration. */
  method ProtectReplaceConfigGitFields(current: seq<Base>, next: seq<Base>, canon: Canonical) returns (result: Option<seq<int>>)
    ensures result.Some? <==> (forall i :: !Unresolvable(current, next, canon, i)) && Carried(current, next, canon)
    ensures result.Some? ==> Matching(current, next, canon, result.value)
  {
    result := MatchReplaceConfigBases(current, next, canon);
    if result.Some? {
      CarriedAlongMatches(current, next, canon, result.value);
      var kept := GitFieldsKept(current, next, result.value);
      if !kept {
        result := None;
      }
    }
  }

  /** The Git settings in use, base by base. */
  function Connections(bases: seq<Base>): multiset<GitFields> {
    if bases == [] then multiset{}
    else Connections(bases[..|bases| - 1]) + Connection(bases[|bases| - 1].git)
  }

  function Connection(git: GitFields): multiset<GitFields> {
    if git == NO_GIT then multiset{} else multiset{git}
  }

  /** The bases that have this connection. */
  ghost function Having(bases: seq<Base>, git: GitFields): set<int> {
    set i | 0 <= i < |bases| && bases[i].git == git
  }

  lemma HavingLast(bases: seq<Base>, git: GitFields)
    requires bases != []
    ensures |Having(bases, git)| == |Having(bases[..|bases| - 1], git)| + if bases[|bases| - 1].git == git then 1 else 0
  {
    var last := |bases| - 1;
    assert Having(bases, git) == Having(bases[..last], git) + if bases[last].git == git then {last} else {};
  }

  /** Every connection is counted once for each base that has it. */
  lemma {:induction false} ConnectionsAreCounted(bases: seq<Base>, git: GitFields)
    requires git != NO_GIT
    ensures Connections(bases)[git] == |Having(bases, git)|
  {
    if bases != [] {
      ConnectionsAreCounted(bases[..|bases| - 1], git);
      HavingLast(bases, git);
    }
  }

  /** `matches` sends every new base with Git settings to its own old base with the same settings. */
  ghost predicate Injects(current: seq<Base>, next: seq<Base>, matches: seq<int>) {
    && |matches| == |next|
    && (forall i, k :: 0 <= i < |next| && 0 <= k < |next| && matches[i] == matches[k] >= 0 ==> i == k)
    && forall i :: 0 <= i < |next| ==> next[i].git == PreviousGit(current, matches[i])
  }

  function Cleared(bases: seq<Base>, c: int): seq<Base> {
    if 0 <= c < |bases| then bases[c := bases[c].(git := NO_GIT)] else bases
  }

  /** Clearing one base's settings takes exactly that connection away. */
  lemma {:induction false} ClearedConnections(bases: seq<Base>, c: int)
    ensures Connections(bases) == Connections(Cleared(bases, c)) + Connection(PreviousGit(bases, c))
  {
    if 0 <= c < |bases| {
      var rest := bases[..|bases| - 1];
      if c == |rest| {
        assert Cleared(bases, c)[..|rest|] == rest;
      } else {
        ClearedConnections(rest, c);
        assert Cleared(bases, c)[..|rest|] == Cleared(rest, c);
      }
    }
  }

  lemma InjectsRest(current: seq<Base>, next: seq<Base>, matches: seq<int>)
    requires Injects(current, next, matches) && next != []
    ensures Injects(Cleared(current, matches[|next| - 1]), next[..|next| - 1], matches[..|next| - 1])
  {
    forall i | 0 <= i < |next| - 1
      ensures next[i].git == PreviousGit(Cleared(current, matches[|next| - 1]), matches[i])
    {
      assert matches[i] == matches[|next| - 1] ==> matches[i] < 0;
    }
  }

  lemma {:induction false} ConnectionsInject(current: seq<Base>, next: seq<Base>, matches: seq<int>)
    requires Injects(current, next, matches)
    ensures Connections(next) <= Connections(current)
    decreases |next|
  {
    if next != [] {
      var c := matches[|next| - 1];
      InjectsRest(current, next, matches);
      ConnectionsInject(Cleared(current, c), next[..|next| - 1], matches[..|next| - 1]);
      ClearedConnections(current, c);
    }
  }

  /** An accepted configuration has no Git connection the old one did not have, and none more often. */
  lemma ConnectionsAreNotCopied(current: seq<Base>, next: seq<Base>, canon: Canonical, matches: seq<int>)
    requires UniqueNames(next) && Carried(current, next, canon)
    requires Matching(current, next, canon, matches)
    ensures Connections(next) <= Connections(current)
  {
    forall i, k | 0 <= i < |next| && 0 <= k < |next| && matches[i] == matches[k] >= 0
      ensures i == k
    {
      ContinuesIsInjective(current, next, canon, i, k, matches[i]);
    }
    CarriedAlongMatches(current, next, canon, matches);
    ConnectionsInject(current, next, matches);
  }
}
