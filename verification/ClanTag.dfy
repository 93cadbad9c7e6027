/** The clan tag shown for a bot replaces the one its controller carries, which is remembered and
    put back. Reads and writes may throw, and a write may not stick. */
module ClanTag {
  import opened Prelude

  datatype ClanValue = ClanValue(tag: string, groupId: uint32)

  // ClanPresentationState
  datatype Override = Override(base: Option<ClanValue>, pending: bool)

  const NO_OVERRIDE := Override(None, false)

  // What goes wrong during one call: each access may throw; `after` is what the controller holds
  // once the write is over, however it ended.
  datatype Faults = Faults(readThrows: bool, writeThrows: bool, after: ClanValue, rereadThrows: bool)

  datatype Applied = Applied(state: Override, clan: ClanValue, threw: bool, wrote: Option<ClanValue>)

  // ClanPresentationState.Apply on a controller that holds `clan`; no request restores.
  function Present(s: Override, clan: ClanValue, requested: Option<ClanValue>, f: Faults): Applied {
    if requested.None? && s.base.None? then Applied(s, clan, false, None)
    else if f.readThrows then Applied(s, clan, true, None)
    else
      var s1 := if requested.Some? && s.base.None? then s.(base := Some(clan)) else s;
      var target := if requested.Some? then requested.value else s.base.value;
      var dropped := if requested.None? then None else s1.base;
      if clan == target && !s1.pending then Applied(s1.(base := dropped), clan, false, None)
      else if f.writeThrows || f.rereadThrows || f.after != target then
        Applied(s1.(pending := true), f.after, true, Some(target))
      else Applied(Override(dropped, false), f.after, false, Some(target))
  }

  // What a call does, access by access: a restore without a base touches nothing; a failed first read
  // changes nothing; the controller is written exactly if it does not hold what it should, or a write is
  // still owed; the call throws exactly if an access it makes throws or the write did not stick; the
  // write is then owed; and a restore that does not throw gives the base up.
  lemma EveryAccessCounts(s: Override, clan: ClanValue, requested: Option<ClanValue>, f: Faults)
    ensures var a := Present(s, clan, requested, f);
            if requested.None? && s.base.None? then a == Applied(s, clan, false, None)
            else if f.readThrows then a == Applied(s, clan, true, None)
            else
              var base := if s.base.Some? then s.base.value else clan;
              var target := if requested.Some? then requested.value else base;
              var due := clan != target || s.pending;
              && a.wrote == (if due then Some(target) else None)
              && a.threw == (due && (f.writeThrows || f.rereadThrows || f.after != target))
              && a.clan == (if due then f.after else clan)
              && a.state.pending == a.threw
              && a.state.base == (if requested.None? && !a.threw then None else Some(base))
  {
  }

  // What may happen to one controller: a call, or the engine writing the clan itself.
  datatype Event = Call(requested: Option<ClanValue>, faults: Faults) | EngineWrites(clan: ClanValue)

  // `first` is history: the value the controller held when the override that is in force began.
  datatype State = State(over: Override, clan: ClanValue, first: Option<ClanValue>)

  function Step(s: State, e: Event): State {
    match e
    case EngineWrites(clan) => s.(clan := clan)
    case Call(requested, f) =>
      var a := Present(s.over, s.clan, requested, f);
      var first :=
        if requested.Some? && !f.readThrows && s.first.None? then Some(s.clan)
        else if requested.None? && !a.threw then None
        else s.first;
      State(a.state, a.clan, first)
  }

  function Run(s: State, es: seq<Event>): State
    decreases |es|
  {
    if es == [] then s else Run(Step(s, es[0]), es[1..])
  }

  // The remembered base is what the controller held first; a write is only owed with a base.
  predicate Inv(s: State) {
    s.over.base == s.first && (s.over.pending ==> s.over.base.Some?)
  }

  lemma {:induction false} RunKeeps(s: State, es: seq<Event>)
    requires Inv(s)
    ensures Inv(Run(s, es))
    decreases |es|
  {
    if es != [] {
      assert Inv(Step(s, es[0]));
      RunKeeps(Step(s, es[0]), es[1..]);
    }
  }

  // Over every run: the base is the value read before the first override, it is given up only by a
  // restore that returns normally, and then the controller holds it; an override that returns
  // normally has stuck; and after a write that did not stick the next call that can read writes.
  lemma CallsAreFaithful(clan: ClanValue, es: seq<Event>, requested: Option<ClanValue>, f: Faults)
    ensures var s := Run(State(NO_OVERRIDE, clan, None), es);
            var a := Present(s.over, s.clan, requested, f);
            && s.over.base == s.first
            && (s.first.Some? && a.state.base != s.first ==> requested.None? && !a.threw && a.state == NO_OVERRIDE)
            && (requested.None? && !a.threw && s.first.Some? ==> a.clan == s.first.value)
            && (requested.None? && s.first.None? ==> a.clan == s.clan && !a.threw)
            && (requested.Some? && !a.threw ==> a.clan == requested.value)
            && (a.threw && !f.readThrows ==> a.state.pending)
            && (s.over.pending && !f.readThrows ==>
                  a.wrote.Some? && a.wrote == if requested.Some? then requested else s.first)
  {
    RunKeeps(State(NO_OVERRIDE, clan, None), es);
  }

  // Overrides only, until one restore: the controller ends with what it held at the beginning,
  // whatever the overrides wrote and however many of them failed.
  predicate OnlyOverrides(es: seq<Event>) {
    forall i :: 0 <= i < |es| ==> es[i].Call? && es[i].requested.Some?
  }

  lemma {:induction false} FirstIsKept(s: State, es: seq<Event>)
    requires OnlyOverrides(es) && s.first.Some?
    ensures Run(s, es).first == s.first
    decreases |es|
  {
    if es != [] {
      FirstIsKept(Step(s, es[0]), es[1..]);
    }
  }

  lemma {:induction false} NothingHappened(s: State, es: seq<Event>)
    requires OnlyOverrides(es) && s.first.None? && s.over == NO_OVERRIDE
    ensures var t := Run(s, es); t == s || t.first == Some(s.clan)
    decreases |es|
  {
    if es != [] {
      if Step(s, es[0]).first.Some? {
        FirstIsKept(Step(s, es[0]), es[1..]);
      } else {
        NothingHappened(Step(s, es[0]), es[1..]);
      }
    }
  }

  lemma OverridesAreUndone(clan: ClanValue, es: seq<Event>, f: Faults)
    requires OnlyOverrides(es)
    ensures var s := Run(State(NO_OVERRIDE, clan, None), es);
            var a := Present(s.over, s.clan, None, f);
            a.threw || (a.clan == clan && a.state == NO_OVERRIDE)
  {
    var s0 := State(NO_OVERRIDE, clan, None);
    NothingHappened(s0, es);
    CallsAreFaithful(clan, es, None, f);
  }

  // A controller whose accesses go wrong as `faults` says.
  class Controller {
    var clan: ClanValue
    var faults: Faults

    constructor (clan: ClanValue, faults: Faults)
      ensures this.clan == clan && this.faults == faults
    {
      this.clan, this.faults := clan, faults;
    }

    method Write(value: ClanValue) returns (ok: bool)
      modifies this`clan
      ensures clan == faults.after && ok == !faults.writeThrows
    {
      clan := faults.after;
      return !faults.writeThrows;
    }
  }

  class ClanPresentationState {
    var base: Option<ClanValue>
    var pending: bool

    constructor ()
      ensures base == None && !pending
    {
      base, pending := None, false;
    }

    method Apply(requested: Option<ClanValue>, controller: Controller) returns (threw: bool)
      modifies this, controller`clan
      ensures var a := Present(Override(old(base), old(pending)), old(controller.clan), requested, controller.faults);
              Override(base, pending) == a.state && controller.clan == a.clan && threw == a.threw
    {
      if requested.None? && base.None? {
        return false;
      }
      if controller.faults.readThrows {
        return true;
      }
      var current := controller.clan;
      if requested.Some? && base.None? {
        base := Some(current);
      }
      var target := if requested.Some? then requested.value else base.value;
      if current != target || pending {
        pending := true;
        var ok := controller.Write(target);
        if !ok || controller.faults.rereadThrows || controller.clan != target {
          return true;
        }
        pending := false;
      }
      if requested.None? {
        base := None;
      }
      return false;
    }
  }

  // What ClanTagPresenter keeps for a slot: the state and whom it was begun for.
  datatype Held = Held(over: Override, handle: uint32, userId: int)

  // The player on a slot; no user id is a null.
  datatype Player = Player(handle: uint32, userId: Option<int>)

  // The controllers by handle; a slot, its player, and the clan values of all controllers.
  type Clans = map<uint32, ClanValue>

  function ClanOf(clans: Clans, handle: uint32): ClanValue {
    if handle in clans then clans[handle] else ClanValue("", 0)
  }

  predicate IsHolder(held: Held, player: Player) {
    held.handle == player.handle && player.userId == Some(held.userId)
  }

  // ClanTagPresenter.Restore; no player is an empty or invalid slot.
  function RestoreSlot(held: Option<Held>, clans: Clans, player: Option<Player>, f: Faults): (Option<Held>, Clans) {
    if held.None? then (None, clans)
    else if player.Some? && IsHolder(held.value, player.value) then
      var a := Present(held.value.over, ClanOf(clans, held.value.handle), None, f);
      (if a.threw then Some(held.value.(over := a.state)) else None, clans[held.value.handle := a.clan])
    else (None, clans)
  }

  // ClanTagPresenter.Apply for the player given, on a slot where `onSlot` is the one found there.
  function ApplySlot(held: Option<Held>, clans: Clans, player: Player, onSlot: Option<Player>, clan: ClanValue,
                     f: Faults, g: Faults): (Option<Held>, Clans)
  {
    if player.userId.None? then (held, clans)
    else if clan.groupId == 0 || clan.tag == "" then RestoreSlot(held, clans, onSlot, f)
    else
      var (h1, clans1) :=
        if held.Some? && !IsHolder(held.value, player) then RestoreSlot(held, clans, onSlot, f) else (held, clans);
      var h2 := if h1.None? then Held(NO_OVERRIDE, player.handle, player.userId.value) else h1.value;
      var a := Present(h2.over, ClanOf(clans1, player.handle), Some(clan), g);
      (Some(h2.(over := a.state)), clans1[player.handle := a.clan])
  }

  // History: the value the slot's holder carried when its override began.
  ghost predicate Remembers(held: Option<Held>, first: map<uint32, ClanValue>) {
    held.Some? && held.value.over.base.Some? ==>
      held.value.handle in first && first[held.value.handle] == held.value.over.base.value
  }

  // A restore writes to no controller but the holder's, and what it leaves there, if it returns
  // normally, is what that very controller carried first.
  lemma RestoreIsOwn(held: Option<Held>, clans: Clans, player: Option<Player>, f: Faults,
                     first: map<uint32, ClanValue>, h: uint32)
    requires Remembers(held, first)
    ensures var (held', clans') := RestoreSlot(held, clans, player, f);
            && Remembers(held', first)
            && (held.None? || h != held.value.handle ==> ClanOf(clans', h) == ClanOf(clans, h))
            && (held.Some? && held.value.over.base.Some? && held'.None? && player.Some? &&
                  IsHolder(held.value, player.value) ==>
                  ClanOf(clans', held.value.handle) == first[held.value.handle])
  {
  }

  // What a restore of a slot comes to: it is given up, unless its holder is on it and an access fails;
  // it writes to the holder's controller if that does not hold the base, or a write is owed, and to no
  // other.
  ghost predicate IsRestored(held: Option<Held>, clans: Clans, onSlot: Option<Player>, f: Faults, held': Option<Held>,
                             clans': Clans)
  {
    var reached := && held.Some? && onSlot.Some? && held.value.over.base.Some?
                   && onSlot.value.handle == held.value.handle && onSlot.value.userId == Some(held.value.userId);
    if !reached then held' == None && forall h :: ClanOf(clans', h) == ClanOf(clans, h)
    else
      var base, handle := held.value.over.base.value, held.value.handle;
      var due := ClanOf(clans, handle) != base || held.value.over.pending;
      var fails := f.readThrows || (due && (f.writeThrows || f.rereadThrows || f.after != base));
      && (if fails
          then held' == Some(held.value.(over := Override(Some(base), held.value.over.pending || !f.readThrows)))
          else held' == None)
      && forall h :: ClanOf(clans', h) == if h == handle && !f.readThrows && due then f.after else ClanOf(clans, h)
  }

  lemma RestoreSettles(held: Option<Held>, clans: Clans, onSlot: Option<Player>, f: Faults)
    ensures var (held', clans') := RestoreSlot(held, clans, onSlot, f);
            IsRestored(held, clans, onSlot, f, held', clans')
  {
    if held.Some? {
      EveryAccessCounts(held.value.over, ClanOf(clans, held.value.handle), None, f);
    }
    hide Present;
  }

  // A player without a user id changes nothing, and an empty clan, by tag or by group, is a restore.
  lemma EmptyClanRestores(held: Option<Held>, clans: Clans, player: Player, onSlot: Option<Player>, clan: ClanValue,
                          f: Faults, g: Faults)
    ensures var (held', clans') := ApplySlot(held, clans, player, onSlot, clan, f, g);
            && (player.userId.None? ==> held' == held && clans' == clans)
            && (player.userId.Some? && (clan.tag == "" || clan.groupId == 0) ==>
                  IsRestored(held, clans, onSlot, f, held', clans'))
  {
    RestoreSettles(held, clans, onSlot, f);
    hide Present, IsRestored;
  }

  // The clan is put on one controller, over the clans given: after a call that can read it the controller
  // holds the clan, or what a write left there; no other controller changes.
  ghost predicate IsPutOn(clans: Clans, clans': Clans, handle: uint32, clan: ClanValue, owed: bool, g: Faults) {
    && (forall h :: h != handle ==> ClanOf(clans', h) == ClanOf(clans, h))
    && ClanOf(clans', handle) ==
         if g.readThrows then ClanOf(clans, handle)
         else if ClanOf(clans, handle) != clan || owed then g.after
         else clan
  }

  lemma PutOnSettles(over: Override, clans: Clans, handle: uint32, clan: ClanValue, g: Faults)
    ensures var a := Present(over, ClanOf(clans, handle), Some(clan), g);
            IsPutOn(clans, clans[handle := a.clan], handle, clan, over.pending, g)
  {
    EveryAccessCounts(over, ClanOf(clans, handle), Some(clan), g);
    hide Present;
  }

  // Any other clan is shown on the player's controller, after a former holder was restored.
  lemma OverrideShows(held: Option<Held>, clans: Clans, player: Player, onSlot: Option<Player>, clan: ClanValue,
                      f: Faults, g: Faults)
    requires player.userId.Some? && clan.groupId != 0 && clan.tag != ""
    ensures var clans' := ApplySlot(held, clans, player, onSlot, clan, f, g).1;
            if held.Some? && !IsHolder(held.value, player)
            then exists freed: Option<Held>, began: Clans ::
                   && IsRestored(held, clans, onSlot, f, freed, began)
                   && IsPutOn(began, clans', player.handle, clan, freed.Some? && freed.value.over.pending, g)
            else IsPutOn(clans, clans', player.handle, clan, held.Some? && held.value.over.pending, g)
  {
    RestoreSettles(held, clans, onSlot, f);
    var other := held.Some? && !IsHolder(held.value, player);
    var (freed, began) := if other then RestoreSlot(held, clans, onSlot, f) else (held, clans);
    var over := if freed.None? then NO_OVERRIDE else freed.value.over;
    PutOnSettles(over, began, player.handle, clan, g);
    hide Present, RestoreSlot, IsRestored, IsPutOn, ClanOf;
  }

  // The slot is still held for a player who is on it, and that player's clan could not be restored.
  predicate IsStuck(held: Option<Held>, clans: Clans, player: Player, onSlot: Option<Player>, f: Faults) {
    && held.Some? && !IsHolder(held.value, player)
    && onSlot.Some? && IsHolder(held.value, onSlot.value)
    && Present(held.value.over, ClanOf(clans, held.value.handle), None, f).threw
  }

  // After an override the slot is held for the player it was made for, exactly unless another player,
  // found on the slot, could not be given the original clan back; it cannot come to that where the
  // player given is the one on the slot.
  lemma OverrideIsOwn(held: Option<Held>, clans: Clans, player: Player, onSlot: Option<Player>, clan: ClanValue,
                      f: Faults, g: Faults)
    requires player.userId.Some? && clan.groupId != 0 && clan.tag != ""
    ensures var (held', clans') := ApplySlot(held, clans, player, onSlot, clan, f, g);
            held'.Some? && (IsHolder(held'.value, player) <==> !IsStuck(held, clans, player, onSlot, f))
    ensures onSlot == Some(player) ==> !IsStuck(held, clans, player, onSlot, f)
  {
    hide Present;
  }

  // The base it then remembers: the holder's own, if it had one; otherwise what the player's controller
  // carried when the override began, after a former holder was given its clan back. A former holder
  // of the same controller that was not found on the slot is not, so that its override counts as the
  // base of the next.
  lemma OverrideRemembers(held: Option<Held>, clans: Clans, player: Player, onSlot: Option<Player>, clan: ClanValue,
                          f: Faults, g: Faults, first: map<uint32, ClanValue>)
    requires Remembers(held, first) && player.userId.Some? && clan.groupId != 0 && clan.tag != ""
    ensures var (held', clans') := ApplySlot(held, clans, player, onSlot, clan, f, g);
            var own := held.Some? && IsHolder(held.value, player);
            var began := if held.Some? && !own then RestoreSlot(held, clans, onSlot, f).1 else clans;
            && held'.Some?
            && (held'.value.over.base.Some? && !IsStuck(held, clans, player, onSlot, f) ==>
                  held'.value.over.base ==
                    if own && held.value.over.base.Some? then Some(first[player.handle])
                    else Some(ClanOf(began, player.handle)))
  {
  }

  // The presenter with its arrays, over the clans of all controllers.
  class ClanTagPresenter {
    const states: array<Option<Override>>
    const userIds: array<int>
    const handles: array<uint32>
    var clans: Clans

    ghost predicate Valid()
      reads this
    {
      && states.Length == MAX_SLOTS && userIds.Length == MAX_SLOTS && handles.Length == MAX_SLOTS
    }

    // What is kept for a slot.
    ghost function HeldAt(slot: nat): Option<Held>
      reads this, states, userIds, handles
      requires Valid() && IsSlot(slot)
    {
      if states[slot].None? then None else Some(Held(states[slot].value, handles[slot], userIds[slot]))
    }

    constructor (clans: Clans)
      ensures Valid() && fresh(states) && fresh(userIds) && fresh(handles) && this.clans == clans
      ensures forall slot :: 0 <= slot < MAX_SLOTS ==> HeldAt(slot) == None
    {
      states := new Option<Override>[MAX_SLOTS](i => None);
      userIds := new int[MAX_SLOTS](i => 0);
      handles := new uint32[MAX_SLOTS](i => 0);
      this.clans := clans;
    }

    // `onSlot` is the valid player that GetPlayerFromSlot finds.
    method Restore(slot: nat, onSlot: Option<Player>, f: Faults)
      requires Valid() && IsSlot(slot)
      modifies this`clans, states
      ensures (HeldAt(slot), clans) == RestoreSlot(old(HeldAt(slot)), old(clans), onSlot, f)
      ensures forall i :: 0 <= i < MAX_SLOTS && i != slot ==> HeldAt(i) == old(HeldAt(i))
    {
      if states[slot].None? {
        return;
      }
      if onSlot.Some? && onSlot.value.handle == handles[slot] && onSlot.value.userId == Some(userIds[slot]) {
        var threw := Write(slot, handles[slot], None, f);
        if threw {
          return;
        }
      }
      states[slot] := None;
    }

    // ClanPresentationState.Apply on the slot's state and a controller.
    method Write(slot: nat, handle: uint32, requested: Option<ClanValue>, f: Faults) returns (threw: bool)
      requires Valid() && IsSlot(slot) && states[slot].Some?
      modifies this`clans, states
      ensures var a := Present(old(states[slot]).value, ClanOf(old(clans), handle), requested, f);
              states[slot] == Some(a.state) && clans == old(clans)[handle := a.clan] && threw == a.threw
      ensures forall i :: 0 <= i < MAX_SLOTS && i != slot ==> states[i] == old(states[i])
    {
      hide Present;
      var a := Present(states[slot].value, ClanOf(clans, handle), requested, f);
      states[slot] := Some(a.state);
      clans := clans[handle := a.clan];
      return a.threw;
    }

    method Apply(slot: nat, player: Player, onSlot: Option<Player>, clan: ClanValue, f: Faults, g: Faults)
      requires Valid() && IsSlot(slot)
      modifies this`clans, states, userIds, handles
      ensures (HeldAt(slot), clans) == ApplySlot(old(HeldAt(slot)), old(clans), player, onSlot, clan, f, g)
      ensures forall i :: 0 <= i < MAX_SLOTS && i != slot ==> HeldAt(i) == old(HeldAt(i))
    {
      hide Present;
      if player.userId.None? {
        return;
      }
      if clan.groupId == 0 || clan.tag == "" {
        Restore(slot, onSlot, f);
        return;
      }
      if states[slot].Some? && (handles[slot] != player.handle || userIds[slot] != player.userId.value) {
        Restore(slot, onSlot, f);
      }
      if states[slot].None? {
        states[slot] := Some(NO_OVERRIDE);
        handles[slot] := player.handle;
        userIds[slot] := player.userId.value;
      }
      var _ := Write(slot, player.handle, Some(clan), g);
    }
  }
}
