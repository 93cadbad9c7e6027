/** The configured identities: canonical account keys and the choice of a free identity. */
module BotInfo {
  import opened Prelude
  import opened Rng

  const STEAM_ID64_BASE: nat := 76561197960265728

  datatype BotEntry = BotEntry(name: string, accountId: uint32, steamId64: uint64)

  predicate AllDigits(s: string) {
    forall k :: 0 <= k < |s| ==> '0' <= s[k] <= '9'
  }

  function DigitValue(c: char): nat
    requires '0' <= c <= '9'
  {
    (c - '0') as nat
  }

  // The number a string of digits denotes.
  function Decimal(s: string): nat
    requires AllDigits(s)
  {
    if s == "" then 0 else 10 * Decimal(s[..|s| - 1]) + DigitValue(s[|s| - 1])
  }

  // ParseAccountId: the whole text must be digits in the range of uint32_t, without leading zero.
  function ParseAccountId(text: string): Option<uint32> {
    if text == "" || text[0] == '0' then None
    else if AllDigits(text) && Decimal(text) < TWO_32 then Some(Decimal(text))
    else None
  }

  // The key under which an account id is written.
  function FormatAccountId(n: nat): (s: string)
    ensures AllDigits(s)
    ensures n != 0 ==> s != "" && s[0] != '0'
    ensures n == 0 ==> s == ""
  {
    if n == 0 then "" else FormatAccountId(n / 10) + [('0' as int + n % 10) as char]
  }

  lemma {:induction false} FormatThenDecimal(n: nat)
    ensures Decimal(FormatAccountId(n)) == n
  {
    if n != 0 {
      FormatThenDecimal(n / 10);
      var s := FormatAccountId(n);
      assert s[..|s| - 1] == FormatAccountId(n / 10);
    }
  }

  lemma {:induction false} DecimalThenFormat(s: string)
    requires AllDigits(s) && (s != "" ==> s[0] != '0')
    ensures FormatAccountId(Decimal(s)) == s
    ensures s != "" ==> Decimal(s) != 0
  {
    if s != "" {
      var front, last := s[..|s| - 1], s[|s| - 1];
      DecimalThenFormat(front);
      DigitComesOff(Decimal(front), DigitValue(last));
      assert Decimal(s) != 0;
      assert ('0' as int + Decimal(s) % 10) as char == last;
      assert s == front + [last];
    }
  }

  lemma DigitComesOff(n: nat, digit: nat)
    requires digit < 10
    ensures (10 * n + digit) / 10 == n && (10 * n + digit) % 10 == digit
  {
  }

  // Accepted keys and non-zero account ids correspond one to one.
  lemma AccountKeysAreCanonical(text: string, id: uint32)
    ensures ParseAccountId(text) == Some(id) <==> id != 0 && text == FormatAccountId(id)
  {
    if ParseAccountId(text) == Some(id) {
      DecimalThenFormat(text);
    }
    if id != 0 && text == FormatAccountId(id) {
      FormatThenDecimal(id);
    }
  }

  // The entry that Load makes of an accepted key.
  function EntryFor(name: string, id: uint32): BotEntry {
    BotEntry(name, id, STEAM_ID64_BASE + id)
  }

  // What Load establishes: an entry per accepted key, and no key twice.
  ghost predicate Loaded(keys: seq<string>, entries: seq<BotEntry>) {
    && |keys| == |entries|
    && (forall i :: 0 <= i < |keys| ==>
          ParseAccountId(keys[i]).Some? && entries[i] == EntryFor(entries[i].name, ParseAccountId(keys[i]).value))
    && (forall i, j :: 0 <= i < j < |keys| ==> keys[i] != keys[j])
  }

  ghost predicate DistinctIds(entries: seq<BotEntry>) {
    && (forall i :: 0 <= i < |entries| ==> entries[i].steamId64 != 0)
    && (forall i, j :: 0 <= i < j < |entries| ==> entries[i].steamId64 != entries[j].steamId64)
  }

  // Distinct keys give distinct, non-zero SteamIDs.
  lemma LoadedIdsAreDistinct(keys: seq<string>, entries: seq<BotEntry>)
    requires Loaded(keys, entries)
    ensures DistinctIds(entries)
    ensures forall i :: 0 <= i < |entries| ==> entries[i].steamId64 == 76561197960265728 + Decimal(keys[i])
  {
    forall i, j | 0 <= i < j < |entries| ensures entries[i].steamId64 != entries[j].steamId64 {
      AccountKeysAreCanonical(keys[i], entries[i].accountId);
      AccountKeysAreCanonical(keys[j], entries[j].accountId);
    }
  }

  // An entry no slot holds and no other client or bot is using.
  predicate IsFree(entries: seq<BotEntry>, taken: seq<bool>, occupied: set<uint64>, i: int)
    requires |taken| == |entries|
  {
    0 <= i < |entries| && !taken[i] && entries[i].steamId64 !in occupied
  }

  predicate Matches(entries: seq<BotEntry>, name: Option<string>, i: int)
    requires 0 <= i < |entries|
  {
    name.Some? && entries[i].name == name.value
  }

  // A proper choice: nothing only if nothing is free; a free entry; one of that name if there is one.
  ghost predicate IsPick(entries: seq<BotEntry>, taken: seq<bool>, occupied: set<uint64>, name: Option<string>,
                         pick: Option<nat>)
    requires |taken| == |entries|
  {
    match pick
    case None => forall i :: !IsFree(entries, taken, occupied, i)
    case Some(p) =>
      && IsFree(entries, taken, occupied, p)
      && ((exists i :: IsFree(entries, taken, occupied, i) && Matches(entries, name, i)) ==> Matches(entries, name, p))
  }

  // The free entries among the first n, in order.
  function FreeUpTo(entries: seq<BotEntry>, taken: seq<bool>, occupied: set<uint64>, n: nat): (free: seq<nat>)
    requires |taken| == |entries| && n <= |entries|
    ensures forall k :: 0 <= k < |free| ==> free[k] < n && IsFree(entries, taken, occupied, free[k])
  {
    if n == 0 then []
    else
      var rest := FreeUpTo(entries, taken, occupied, n - 1);
      if IsFree(entries, taken, occupied, n - 1) then rest + [n - 1] else rest
  }

  // Those of the given entries that carry the name.
  function Named(entries: seq<BotEntry>, name: Option<string>, some: seq<nat>): (named: seq<nat>)
    requires forall k :: 0 <= k < |some| ==> some[k] < |entries|
    ensures forall p :: p in named ==> p in some && Matches(entries, name, p)
  {
    if some == [] then []
    else
      var last := some[|some| - 1];
      var rest := Named(entries, name, some[..|some| - 1]);
      if Matches(entries, name, last) then rest + [last] else rest
  }

  // The choice that a random number makes.
  function Pick(entries: seq<BotEntry>, taken: seq<bool>, occupied: set<uint64>, name: Option<string>, r: nat)
    : (pick: Option<nat>)
    requires |taken| == |entries|
    ensures pick.Some? ==> pick.value < |entries|
  {
    var free := FreeUpTo(entries, taken, occupied, |entries|);
    var named := Named(entries, name, free);
    var candidates := if named == [] then free else named;
    if candidates == [] then None
    else
      assert candidates[r % |candidates|] in candidates;
      Some(candidates[r % |candidates|])
  }

  lemma {:induction false} FreeUpToIsComplete(entries: seq<BotEntry>, taken: seq<bool>, occupied: set<uint64>,
                                              n: nat, i: nat)
    requires |taken| == |entries| && i < n <= |entries| && IsFree(entries, taken, occupied, i)
    ensures i in FreeUpTo(entries, taken, occupied, n)
  {
    if i < n - 1 {
      FreeUpToIsComplete(entries, taken, occupied, n - 1, i);
    }
  }

  lemma {:induction false} NamedIsComplete(entries: seq<BotEntry>, name: Option<string>, some: seq<nat>, p: nat)
    requires forall k :: 0 <= k < |some| ==> some[k] < |entries|
    requires p in some && Matches(entries, name, p)
    ensures p in Named(entries, name, some)
  {
    var last := |some| - 1;
    if p != some[last] {
      assert p in some[..last] by { assert some == some[..last] + [some[last]]; }
      NamedIsComplete(entries, name, some[..last], p);
    }
  }

  // Whatever the random number, the choice is proper.
  lemma PickIsProper(entries: seq<BotEntry>, taken: seq<bool>, occupied: set<uint64>, name: Option<string>, r: nat)
    requires |taken| == |entries|
    ensures IsPick(entries, taken, occupied, name, Pick(entries, taken, occupied, name, r))
  {
    var free := FreeUpTo(entries, taken, occupied, |entries|);
    var named := Named(entries, name, free);
    var pick := Pick(entries, taken, occupied, name, r);
    if pick.Some? {
      var candidates := if named == [] then free else named;
      assert candidates[r % |candidates|] in candidates;
    }
    forall i: nat | IsFree(entries, taken, occupied, i)
      ensures pick.Some? && (Matches(entries, name, i) ==> pick.value in named)
    {
      FreeUpToIsComplete(entries, taken, occupied, |entries|, i);
      if Matches(entries, name, i) {
        NamedIsComplete(entries, name, free, i);
      }
    }
  }

  // An entry that a pick may give: one that no slot holds and whose SteamID nobody uses, and one of the
  // name asked for if any of those is.
  ghost predicate IsCandidate(entries: seq<BotEntry>, taken: seq<bool>, occupied: set<uint64>, name: Option<string>,
                              p: nat)
    requires |taken| == |entries|
  {
    && p < |entries| && !taken[p] && entries[p].steamId64 !in occupied
    && (name.Some? &&
        (exists i :: 0 <= i < |entries| && !taken[i] && entries[i].steamId64 !in occupied &&
                     entries[i].name == name.value) ==>
          entries[p].name == name.value)
  }

  lemma CandidatesArePicks(entries: seq<BotEntry>, taken: seq<bool>, occupied: set<uint64>, name: Option<string>,
                           p: nat)
    requires |taken| == |entries|
    ensures IsCandidate(entries, taken, occupied, name, p) <==> IsPick(entries, taken, occupied, name, Some(p))
  {
    if exists i :: IsFree(entries, taken, occupied, i) && Matches(entries, name, i) {
      var i :| IsFree(entries, taken, occupied, i) && Matches(entries, name, i);
      assert 0 <= i < |entries| && !taken[i] && entries[i].steamId64 !in occupied && entries[i].name == name.value;
    }
    if i :| 0 <= i < |entries| && !taken[i] && entries[i].steamId64 !in occupied && name == Some(entries[i].name) {
      assert IsFree(entries, taken, occupied, i) && Matches(entries, name, i);
    }
  }

  ghost predicate Ascending(s: seq<nat>) {
    forall i, j :: 0 <= i < j < |s| ==> s[i] < s[j]
  }

  lemma {:induction false} FreeAscends(entries: seq<BotEntry>, taken: seq<bool>, occupied: set<uint64>, n: nat)
    requires |taken| == |entries| && n <= |entries|
    ensures Ascending(FreeUpTo(entries, taken, occupied, n))
  {
    if n > 0 {
      FreeAscends(entries, taken, occupied, n - 1);
    }
  }

  lemma {:induction false} NamedAscends(entries: seq<BotEntry>, name: Option<string>, some: seq<nat>)
    requires (forall k :: 0 <= k < |some| ==> some[k] < |entries|) && Ascending(some)
    ensures Ascending(Named(entries, name, some))
  {
    if some != [] {
      var last := |some| - 1;
      var rest := Named(entries, name, some[..last]);
      NamedAscends(entries, name, some[..last]);
      forall k | 0 <= k < |rest| ensures rest[k] < some[last] {
        assert rest[k] in some[..last];
      }
    }
  }

  // The draw decides evenly: the candidates in the order of the pool, counted by the draw's remainder.
  // So each of them comes up, and no two draws below their number give the same.
  lemma PickCountsCandidates(entries: seq<BotEntry>, taken: seq<bool>, occupied: set<uint64>, name: Option<string>)
    returns (candidates: seq<nat>)
    requires |taken| == |entries|
    ensures Ascending(candidates)
    ensures forall p: nat :: p in candidates <==> IsCandidate(entries, taken, occupied, name, p)
    ensures forall r: nat ::
              Pick(entries, taken, occupied, name, r) ==
                if candidates == [] then None else Some(candidates[r % |candidates|])
  {
    var free := FreeUpTo(entries, taken, occupied, |entries|);
    var named := Named(entries, name, free);
    candidates := if named == [] then free else named;
    FreeAscends(entries, taken, occupied, |entries|);
    NamedAscends(entries, name, free);
    forall p: nat | IsFree(entries, taken, occupied, p)
      ensures p in free && (Matches(entries, name, p) ==> p in named)
    {
      FreeUpToIsComplete(entries, taken, occupied, |entries|, p);
      if Matches(entries, name, p) {
        NamedIsComplete(entries, name, free, p);
      }
    }
    if named != [] {
      assert named[0] in named && IsFree(entries, taken, occupied, named[0]) && Matches(entries, name, named[0]);
    }
    forall p: nat ensures p in candidates <==> IsCandidate(entries, taken, occupied, name, p) {
      CandidatesArePicks(entries, taken, occupied, name, p);
      hide IsCandidate;
    }
  }

  // Pigeonhole: with more identities than assignments and occupied ids, one is free.
  lemma {:induction false} SomeEntryIsFree(entries: seq<BotEntry>, taken: seq<bool>, occupied: set<uint64>)
    returns (i: nat)
    requires |taken| == |entries| && DistinctIds(entries)
    requires |entries| > CountTrue(taken) + |occupied|
    ensures IsFree(entries, taken, occupied, i)
    decreases |entries|
  {
    var n := |entries| - 1;
    if IsFree(entries, taken, occupied, n) {
      i := n;
    } else if taken[n] {
      i := SomeEntryIsFree(entries[..n], taken[..n], occupied);
    } else {
      var id := entries[n].steamId64;
      assert |occupied - {id}| == |occupied| - 1;
      i := SomeEntryIsFree(entries[..n], taken[..n], occupied - {id});
    }
  }

  lemma PickSucceeds(entries: seq<BotEntry>, taken: seq<bool>, occupied: set<uint64>, name: Option<string>, r: nat)
    requires |taken| == |entries| && DistinctIds(entries)
    requires |entries| > CountTrue(taken) + |occupied|
    ensures Pick(entries, taken, occupied, name, r).Some?
  {
    var i := SomeEntryIsFree(entries, taken, occupied);
    PickIsProper(entries, taken, occupied, name, r);
    hide Pick;
    assert IsFree(entries, taken, occupied, i);
  }

  class BotInfoStore {
    var entries: seq<BotEntry>
    var taken: seq<bool>
    var rngState: bv64

    ghost predicate Valid()
      reads this
    {
      |taken| == |entries| && DistinctIds(entries)
    }

    constructor (keys: seq<string>, entries: seq<BotEntry>, seed: bv64)
      requires Loaded(keys, entries)
      ensures Valid() && this.entries == entries && this.taken == seq(|entries|, i => false)
    {
      LoadedIdsAreDistinct(keys, entries);
      this.entries := entries;
      taken := seq(|entries|, i => false);
      rngState := seed;
    }

    // The state is never zero afterwards, where the generator would stick.
    method NextRand() returns (r: uint64)
      modifies this`rngState
      ensures rngState == Shuffle(Seeded(old(rngState))) && r == Output(rngState)
      ensures rngState != 0
    {
      ShuffleKeepsNonZero(Seeded(rngState));
      rngState := Shuffle(Seeded(rngState));
      r := Output(rngState);
    }

    method PickForBot(engineName: Option<string>, occupied: set<uint64>) returns (pick: Option<nat>)
      requires Valid()
      modifies this`taken, this`rngState
      ensures Valid()
      ensures pick == Pick(entries, old(taken), occupied, engineName, Output(Shuffle(Seeded(old(rngState)))))
      ensures taken == if pick.None? then old(taken) else old(taken)[pick.value := true]
      ensures rngState == if pick.None? then old(rngState) else Shuffle(Seeded(old(rngState)))
    {
      hide Shuffle, Output, Seeded, DistinctIds;
      var available: seq<nat>, matches: seq<nat> := [], [];
      for i := 0 to |entries|
        invariant available == FreeUpTo(entries, taken, occupied, i)
        invariant matches == Named(entries, engineName, available)
      {
        if taken[i] || entries[i].steamId64 in occupied {
          continue;
        }
        available := available + [i];
        assert available[..|available| - 1] == FreeUpTo(entries, taken, occupied, i);
        if engineName.Some? && entries[i].name == engineName.value {
          matches := matches + [i];
        }
      }
      var candidates := if |matches| == 0 then available else matches;
      if |candidates| == 0 {
        return None;
      }
      var r := NextRand();
      var chosen := candidates[r % |candidates|];
      assert chosen in candidates;
      taken := taken[chosen := true];
      return Some(chosen);
    }

    // A null entry releases nothing.
    method ReleaseAssignment(entry: Option<nat>)
      requires Valid() && (entry.Some? ==> entry.value < |entries|)
      modifies this`taken
      ensures Valid()
      ensures taken == if entry.None? then old(taken) else old(taken)[entry.value := false]
    {
      if entry.Some? {
        taken := taken[entry.value := false];
      }
    }

    method ResetAssignments()
      requires Valid()
      modifies this`taken
      ensures Valid() && taken == seq(|entries|, i => false)
    {
      for i := 0 to |taken|
        invariant |taken| == |entries| && forall k :: 0 <= k < i ==> !taken[k]
      {
        taken := taken[i := false];
      }
    }
  }
}
