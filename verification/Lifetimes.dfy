/** Everything that is asked for in one bot lifetime and carried out later: setter calls through a
    slot handle, queued kicks, and avatar reads. Bots come and go in between. The fields from `seed`
    on are history: no step's outcome depends on them. */
module Lifetimes {
  import opened Prelude
  import opened Engine
  import opened Manager
  import opened Incarnation
  import opened AvatarReads
  import Bridge

  // What a caller learns from a slot; `life` numbers the adoption it stems from.
  datatype Handle = Handle(slot: nat, incarnation: uint64, life: nat)

  // PendingBotKick; `ticket` is the place of its request in the log.
  datatype Kick = Kick(handle: Handle, client: nat, userId: uint16, ticket: nat)

  // What has happened: `asked` and `acting` number the lifetimes that issued and that took an effect.
  datatype Record =
    | Started(slot: nat, life: nat)
    | Wiped(slot: nat)
    | Ended(slot: nat, task: nat)
    | Loaded(slot: nat, task: nat, acting: nat)
    | Set(slot: nat, asked: nat, acting: nat)
    | KickAsked(slot: nat, life: nat, client: nat, userId: uint16)
    | Kicked(slot: nat, ticket: nat, acting: nat, client: nat, userId: uint16)

  datatype State = State(
    slots: Slots,
    counter: uint64,
    connected: bool,
    handles: seq<Handle>,
    queued: seq<Kick>,
    draining: seq<Kick>,
    entries: seq<Entry>,
    seed: uint64,
    adoptions: nat,
    lives: seq<nat>,
    log: seq<Record>)

  ghost predicate WellSized(s: State) {
    |s.entries| == MAX_SLOTS && |s.lives| == MAX_SLOTS
  }

  datatype Event =
    | Adopt(slot: nat, steamId: uint64)
    | Release(slot: nat)
    | ReleaseAll
    | Connect(connected: bool)
    | Hold(slot: nat)
    | Use(handle: nat)
    | QueueKick(slot: nat, client: Option<Client>, ready: bool)
    | BeginDrain(ready: bool)
    | DrainNext(client: Option<Client>, named: bool)
    | TrySetAvatar(slot: nat, wish: Wish)
    | FinishRead(slot: nat, outcome: Outcome)

  // Target
  predicate Accepts(s: State, h: Handle)
    requires h.slot < MAX_SLOTS
  {
    s.connected && Target(s.slots[h.slot], h.incarnation)
  }

  // The checks of DrainPendingBotKicks.
  predicate Dispatches(s: State, k: Kick, client: Option<Client>, named: bool)
    requires k.handle.slot < MAX_SLOTS
  {
    && s.slots[k.handle.slot].managed
    && client.Some? && client.value.id == k.client && !client.value.hltv
    && client.value.userId == k.userId
    && (k.handle.incarnation != 0 ==> s.slots[k.handle.slot].incarnation == k.handle.incarnation)
    && named
  }

  ghost function Step(s: State, e: Event): (s': State)
    requires WellSized(s)
    requires forall h <- s.handles :: h.slot < MAX_SLOTS
    requires forall k <- s.draining :: k.handle.slot < MAX_SLOTS
    ensures WellSized(s')
  {
    match e
    case Adopt(slot, steamId) =>
      if !IsSlot(slot) then s
      else
        var stamp := NextIncarnation(s.counter);
        s.(slots := s.slots[slot := Adopted(s.slots[slot], steamId, stamp)],
           counter := stamp, adoptions := s.adoptions + 1, lives := s.lives[slot := s.adoptions + 1])
    case Release(slot) => if !IsSlot(slot) then s else s.(slots := s.slots[slot := Cleared(s.slots[slot])])
    case ReleaseAll => s.(slots := seq(MAX_SLOTS, i requires 0 <= i < MAX_SLOTS => Cleared(s.slots[i])), queued := [])
    case Connect(connected) => s.(connected := connected)
    case Hold(slot) =>
      if !s.connected || !IsSlot(slot) then s
      else s.(handles := s.handles + [Handle(slot, s.slots[slot].incarnation, s.lives[slot])])
    case Use(handle) =>
      if handle >= |s.handles| || !Accepts(s, s.handles[handle]) then s
      else
        var h := s.handles[handle];
        s.(log := s.log + [Set(h.slot, h.life, s.lives[h.slot])])
    case QueueKick(slot, client, ready) =>
      if !IsSlot(slot) || !ready || !s.slots[slot].managed || client.None? || client.value.hltv then s
      else
        s.(queued := s.queued + [Kick(Handle(slot, s.slots[slot].incarnation, s.lives[slot]), client.value.id,
                                      client.value.userId, |s.log|)],
           log := s.log + [KickAsked(slot, s.lives[slot], client.value.id, client.value.userId)])
    case BeginDrain(ready) => s.(draining := if ready then s.queued + s.draining else s.draining, queued := [])
    case DrainNext(client, named) =>
      if s.draining == [] then s
      else
        var k, s1 := s.draining[0], s.(draining := s.draining[1..]);
        if Dispatches(s, k, client, named) then
          s1.(log := s.log + [Kicked(k.handle.slot, k.ticket, s.lives[k.handle.slot], client.value.id,
                                     client.value.userId)])
        else s1
    case TrySetAvatar(slot, wish) =>
      if !s.connected || !IsSlot(slot) then s
      else
        var t := TrySet(s.entries[slot], s.slots[slot], wish, |s.log|);
        s.(entries := s.entries[slot := t.entry], slots := s.slots[slot := t.slot],
           log := s.log + (if wish.Zero? && s.slots[slot].managed then [Wiped(slot)]
                           else if t.entry != s.entries[slot] then [Started(slot, s.lives[slot])] else []))
    case FinishRead(slot, outcome) =>
      if !IsSlot(slot) then s
      else
        var e := s.entries[slot];
        var (entry, after) := Finish(s.connected, e, s.slots[slot], Some(outcome));
        s.(entries := s.entries[slot := entry], slots := s.slots[slot := after],
           log := s.log + (if e.task.None? then []
                           else if after != s.slots[slot] then [Loaded(slot, e.task.value, s.lives[slot])]
                           else [Ended(slot, e.task.value)]))
  }

  ghost predicate StampsOk(s: State) {
    && WellSized(s)
    && s.counter == StampAfter(s.seed, s.adoptions)
    && (forall i :: 0 <= i < MAX_SLOTS ==> s.lives[i] <= s.adoptions)
    && (forall i :: 0 <= i < MAX_SLOTS && s.slots[i].managed ==>
          s.lives[i] > 0 && s.slots[i].incarnation == StampAfter(s.seed, s.lives[i]))
    && (forall i :: 0 <= i < MAX_SLOTS && !s.slots[i].managed ==> s.slots[i].incarnation == 0)
  }

  // A stamp that is not zero is that of the adoption it is said to stem from.
  ghost predicate HandleOk(s: State, h: Handle)
    requires WellSized(s)
  {
    && h.slot < MAX_SLOTS
    && h.life <= s.lives[h.slot]
    && (h.incarnation != 0 ==> h.life > 0 && h.incarnation == StampAfter(s.seed, h.life))
  }

  ghost predicate KickOk(s: State, k: Kick)
    requires WellSized(s)
  {
    && HandleOk(s, k.handle) && k.handle.incarnation != 0
    && k.ticket < |s.log| && s.log[k.ticket] == KickAsked(k.handle.slot, k.handle.life, k.client, k.userId)
  }

  predicate Ends(r: Record, slot: nat, task: nat) {
    (r.Ended? || r.Loaded?) && r.slot == slot && r.task == task
  }

  // A read that was started and whose result has not been taken.
  ghost predicate Open(log: seq<Record>, slot: nat, task: nat) {
    && task < |log| && log[task].Started? && log[task].slot == slot
    && forall m :: task < m < |log| ==> !Ends(log[m], slot, task)
  }

  // No avatar was cleared on the slot from position `from` on.
  ghost predicate NotWiped(log: seq<Record>, slot: nat, from: nat) {
    forall m :: from <= m < |log| ==> log[m] != Wiped(slot)
  }

  ghost predicate EntryOk(s: State, slot: nat)
    requires WellSized(s) && slot < MAX_SLOTS
  {
    var e := s.entries[slot];
    && (forall task: nat :: Open(s.log, slot, task) <==> e.task == Some(task))
    && (e.task.Some? && e.incarnation != 0 ==> HandleOk(s, Handle(slot, e.incarnation, s.log[e.task.value].life)))
    && (e.task.Some? ==> (e.incarnation != 0 <==> NotWiped(s.log, slot, e.task.value)))
  }

  // An effect reaches the lifetime that asked for it, or one a full cycle of stamps later.
  predicate Reaches(asked: nat, acting: nat) {
    asked <= acting && (acting - asked) % CYCLE == 0
  }

  ghost predicate RecordOk(log: seq<Record>, k: nat)
    requires k < |log|
  {
    match log[k]
    case Loaded(slot, task, acting) =>
      && Open(log[..k], slot, task) && NotWiped(log[..k], slot, task)
      && Reaches(log[task].life, acting)
    case Set(slot, asked, acting) => Reaches(asked, acting)
    case Kicked(slot, ticket, acting, client, userId) =>
      ticket < k && log[ticket].KickAsked? && log[ticket] == KickAsked(slot, log[ticket].life, client, userId) &&
      Reaches(log[ticket].life, acting)
    case _ => true
  }

  ghost predicate Inv(s: State) {
    && StampsOk(s)
    && (forall h <- s.handles :: HandleOk(s, h))
    && (forall k <- s.queued :: KickOk(s, k))
    && (forall k <- s.draining :: KickOk(s, k))
    && (forall slot :: 0 <= slot < MAX_SLOTS ==> EntryOk(s, slot))
    && (forall k :: 0 <= k < |s.log| ==> RecordOk(s.log, k))
  }

  // Whoever holds a stamp of a managed slot holds it from the same lifetime, up to full cycles.
  lemma SameStampReaches(s: State, h: Handle)
    requires StampsOk(s) && HandleOk(s, h) && h.incarnation != 0 && s.slots[h.slot].managed
    ensures s.slots[h.slot].incarnation == h.incarnation <==> Reaches(h.life, s.lives[h.slot])
  {
    StampsAgree(s.seed, h.life, s.lives[h.slot]);
  }

  lemma OpenExtends(log: seq<Record>, r: Record, slot: nat)
    ensures forall task: nat :: Open(log + [r], slot, task) <==>
              (Open(log, slot, task) && !Ends(r, slot, task)) || (task == |log| && r.Started? && r.slot == slot)
  {
    var log' := log + [r];
    assert log'[|log|] == r;
    forall task: nat
      ensures Open(log', slot, task) <==>
                (Open(log, slot, task) && !Ends(r, slot, task)) || (task == |log| && r.Started? && r.slot == slot)
    {
      assert forall m :: 0 <= m < |log| ==> log'[m] == log[m];
    }
  }

  lemma WipesExtend(log: seq<Record>, r: Record, slot: nat, from: nat)
    requires from <= |log|
    ensures NotWiped(log + [r], slot, from) <==> NotWiped(log, slot, from) && r != Wiped(slot)
  {
    var log' := log + [r];
    assert log'[|log|] == r;
    assert forall m :: 0 <= m < |log| ==> log'[m] == log[m];
  }

  // The log grows by a record that is justified by what came before.
  lemma LogExtends(log: seq<Record>, r: Record)
    requires forall k :: 0 <= k < |log| ==> RecordOk(log, k)
    requires RecordOk(log + [r], |log|)
    ensures forall k :: 0 <= k < |log + [r]| ==> RecordOk(log + [r], k)
  {
    forall k | 0 <= k < |log| ensures RecordOk(log + [r], k) {
      assert (log + [r])[..k] == log[..k];
      assert RecordOk(log, k);
    }
  }

  // What becomes of the slots' entries when only a record is added that concerns no read.
  lemma EntriesKeep(s: State, s': State, r: Record)
    requires WellSized(s) && WellSized(s')
    requires s'.entries == s.entries && s'.lives == s.lives && s'.seed == s.seed && s'.log == s.log + [r]
    requires r.Set? || r.Kicked? || r.KickAsked?
    requires forall slot :: 0 <= slot < MAX_SLOTS ==> EntryOk(s, slot)
    ensures forall slot :: 0 <= slot < MAX_SLOTS ==> EntryOk(s', slot)
  {
    forall slot | 0 <= slot < MAX_SLOTS ensures EntryOk(s', slot) {
      EntryKeeps(s, s', r, slot);
    }
  }

  lemma EntryKeeps(s: State, s': State, r: Record, slot: nat)
    requires WellSized(s) && WellSized(s') && slot < MAX_SLOTS
    requires s'.entries[slot] == s.entries[slot] && s'.lives == s.lives && s'.seed == s.seed && s'.log == s.log + [r]
    requires r.slot != slot || r.Set? || r.Kicked? || r.KickAsked?
    requires EntryOk(s, slot)
    ensures EntryOk(s', slot)
  {
    hide StampAfter;
    OpenExtends(s.log, r, slot);
    var e := s.entries[slot];
    if e.task.Some? {
      assert Open(s.log, slot, e.task.value);
      WipesExtend(s.log, r, slot, e.task.value);
    }
  }

  lemma AdoptKeeps(s: State, slot: nat, steamId: uint64)
    requires Inv(s)
    ensures Inv(Step(s, Adopt(slot, steamId)))
  {
    var s' := Step(s, Adopt(slot, steamId));
    hide Open, NotWiped, RecordOk;
    if IsSlot(slot) {
      assert s'.counter == StampAfter(s.seed, s.adoptions + 1);
      StampsAgree(s.seed, s.adoptions + 1, s.adoptions + 1);
      forall i | 0 <= i < MAX_SLOTS ensures EntryOk(s', i) {
        assert EntryOk(s, i);
      }
    }
  }

  lemma ReleaseKeeps(s: State, e: Event)
    requires Inv(s) && (e.Release? || e.ReleaseAll? || e.Connect?)
    ensures Inv(Step(s, e))
  {
    var s' := Step(s, e);
    hide Open, NotWiped, RecordOk, StampAfter;
    forall i | 0 <= i < MAX_SLOTS ensures EntryOk(s', i) {
      assert EntryOk(s, i);
    }
  }

  lemma HandleStepsKeep(s: State, e: Event)
    requires Inv(s) && (e.Hold? || e.Use?)
    ensures Inv(Step(s, e))
  {
    var s' := Step(s, e);
    if e.Use? && s' != s {
      var h := s.handles[e.handle];
      assert HandleOk(s, h);
      SameStampReaches(s, h);
      hide Open, NotWiped, StampAfter;
      var r := Set(h.slot, h.life, s.lives[h.slot]);
      LogExtends(s.log, r);
      EntriesKeep(s, s', r);
    } else {
      hide Open, NotWiped, StampAfter, RecordOk;
      forall i | 0 <= i < MAX_SLOTS ensures EntryOk(s', i) {
        assert EntryOk(s, i);
      }
    }
  }

  lemma QueueKeeps(s: State, slot: nat, client: Option<Client>, ready: bool)
    requires Inv(s)
    ensures Inv(Step(s, QueueKick(slot, client, ready)))
  {
    var s' := Step(s, QueueKick(slot, client, ready));
    if s'.log != s.log {
      StampsAgree(s.seed, s.lives[slot], s.lives[slot]);
      hide Open, NotWiped, StampAfter;
      var r := KickAsked(slot, s.lives[slot], client.value.id, client.value.userId);
      LogExtends(s.log, r);
      EntriesKeep(s, s', r);
    } else {
      assert s' == s;
    }
  }

  lemma BeginDrainKeeps(s: State, ready: bool)
    requires Inv(s)
    ensures Inv(Step(s, BeginDrain(ready)))
  {
    hide Open, NotWiped, StampAfter, RecordOk;
    var s' := Step(s, BeginDrain(ready));
    forall i | 0 <= i < MAX_SLOTS ensures EntryOk(s', i) {
      assert EntryOk(s, i);
    }
  }

  lemma DrainKeeps(s: State, client: Option<Client>, named: bool)
    requires Inv(s)
    ensures Inv(Step(s, DrainNext(client, named)))
  {
    var s' := Step(s, DrainNext(client, named));
    if s.draining != [] {
      var k, s1 := s.draining[0], s.(draining := s.draining[1..]);
      assert KickOk(s, k);
      DroppedKickKeeps(s);
      if Dispatches(s, k, client, named) {
        var h := k.handle;
        SameStampReaches(s1, h);
        var r := Kicked(h.slot, k.ticket, s.lives[h.slot], client.value.id, client.value.userId);
        hide Open, NotWiped, StampAfter, EntryOk, HandleOk, StampsOk;
        LogExtends(s1.log, r);
        EntriesKeep(s1, s', r);
        LongerLogKeeps(s1, s', r);
      }
    }
  }

  lemma DroppedKickKeeps(s: State)
    requires Inv(s) && s.draining != []
    ensures Inv(s.(draining := s.draining[1..]))
  {
    hide Open, NotWiped, StampAfter, RecordOk;
    var s1 := s.(draining := s.draining[1..]);
    forall i | 0 <= i < MAX_SLOTS ensures EntryOk(s1, i) {
      assert EntryOk(s, i);
    }
    assert forall k <- s1.draining :: k in s.draining;
  }

  // A longer log leaves the stamps and the tickets in order.
  lemma LongerLogKeeps(s: State, s': State, r: Record)
    requires Inv(s) && s' == s.(log := s.log + [r])
    ensures StampsOk(s')
    ensures (forall h <- s'.handles :: HandleOk(s', h)) && (forall k <- s'.queued :: KickOk(s', k)) &&
            (forall k <- s'.draining :: KickOk(s', k))
  {
    hide Open, NotWiped, StampAfter, RecordOk, EntryOk;
    forall k | k in s.queued || k in s.draining ensures KickOk(s', k) {
      assert KickOk(s, k);
    }
  }

  // A step on one slot's entry that adds a record about that slot.
  lemma ReadStepKeeps(s: State, s': State, slot: nat, r: Record)
    requires Inv(s) && slot < MAX_SLOTS && r.slot == slot
    requires WellSized(s') && s' == s.(entries := s'.entries, slots := s'.slots, log := s.log + [r])
    requires s'.entries == s.entries[slot := s'.entries[slot]]
    requires StampsOk(s') && EntryOk(s', slot) && RecordOk(s'.log, |s.log|)
    ensures Inv(s')
  {
    hide Open, NotWiped, StampAfter;
    LogExtends(s.log, r);
    forall i | 0 <= i < MAX_SLOTS ensures EntryOk(s', i) {
      assert EntryOk(s, i);
      if i != slot {
        EntryKeeps(s, s', r, i);
      }
    }
  }

  lemma TrySetKeeps(s: State, slot: nat, wish: Wish)
    requires Inv(s)
    ensures Inv(Step(s, TrySetAvatar(slot, wish)))
  {
    var s' := Step(s, TrySetAvatar(slot, wish));
    if s' != s {
      hide StampAfter, Bridge.IsAvatar;
      var e := s.entries[slot];
      assert EntryOk(s, slot);
      assert StampsOk(s');
      if wish.Zero? {
        OpenExtends(s.log, Wiped(slot), slot);
        if e.task.Some? {
          assert Open(s.log, slot, e.task.value);
          WipesExtend(s.log, Wiped(slot), slot, e.task.value);
        }
        ReadStepKeeps(s, s', slot, Wiped(slot));
      } else {
        var r := Started(slot, s.lives[slot]);
        OpenExtends(s.log, r, slot);
        assert s'.log[|s.log|] == r;
        ReadStepKeeps(s, s', slot, r);
      }
    }
  }

  lemma FinishKeeps(s: State, slot: nat, outcome: Outcome)
    requires Inv(s)
    ensures Inv(Step(s, FinishRead(slot, outcome)))
  {
    var s' := Step(s, FinishRead(slot, outcome));
    if s' != s {
      hide StampAfter, Bridge.IsAvatar;
      var e := s.entries[slot];
      var task := e.task.value;
      assert EntryOk(s, slot) && Open(s.log, slot, task);
      var r := s'.log[|s.log|];
      assert s'.log == s.log + [r] && s'.log[..|s.log|] == s.log;
      OpenExtends(s.log, r, slot);
      if r.Loaded? {
        SameStampReaches(s, Handle(slot, e.incarnation, s.log[task].life));
      }
      ReadStepKeeps(s, s', slot, r);
    }
  }

  lemma StepKeeps(s: State, e: Event)
    requires Inv(s)
    ensures Inv(Step(s, e))
  {
    hide Inv;
    match e
    case Adopt(slot, steamId) => AdoptKeeps(s, slot, steamId);
    case Release(_) => ReleaseKeeps(s, e);
    case ReleaseAll => ReleaseKeeps(s, e);
    case Connect(_) => ReleaseKeeps(s, e);
    case Hold(_) => HandleStepsKeep(s, e);
    case Use(_) => HandleStepsKeep(s, e);
    case QueueKick(slot, client, ready) => QueueKeeps(s, slot, client, ready);
    case BeginDrain(ready) => BeginDrainKeeps(s, ready);
    case DrainNext(client, named) => DrainKeeps(s, client, named);
    case TrySetAvatar(slot, wish) => TrySetKeeps(s, slot, wish);
    case FinishRead(slot, outcome) => FinishKeeps(s, slot, outcome);
  }

  ghost function Run(s: State, es: seq<Event>): (s': State)
    requires Inv(s)
    ensures Inv(s')
    decreases |es|
  {
    if es == [] then s
    else
      StepKeeps(s, es[0]);
      Run(Step(s, es[0]), es[1..])
  }

  function Start(seed: uint64): State {
    State(seq(MAX_SLOTS, i => EMPTY_SLOT), seed, false, [], [], [], seq(MAX_SLOTS, i => NO_READ),
          seed, 0, seq(MAX_SLOTS, i => 0), [])
  }

  lemma StartIsGood(seed: uint64)
    ensures Inv(Start(seed))
  {
  }

  // The state after a run from the start.
  ghost function After(seed: uint64, es: seq<Event>): (s: State)
    ensures Inv(s)
  {
    StartIsGood(seed);
    Run(Start(seed), es)
  }

  // The lifetimes that asked for an effect and that took it.
  ghost predicate Crosses(log: seq<Record>, k: nat, asked: nat, acting: nat)
    requires k < |log|
  {
    match log[k]
    case Loaded(_, task, a) =>
      task < k && log[task].Started? && log[task].slot == log[k].slot && asked == log[task].life && acting == a
    case Set(_, i, a) => asked == i && acting == a
    case Kicked(_, ticket, a, _, _) => ticket < k && log[ticket].KickAsked? && asked == log[ticket].life && acting == a
    case _ => false
  }

  // Lifetime isolation: over every run, an effect asked for in one lifetime acts in that lifetime,
  // as long as fewer than 2^64 - 1 adoptions lie between.
  lemma LifetimesAreIsolated(seed: uint64, es: seq<Event>, k: nat, asked: nat, acting: nat)
    requires k < |After(seed, es).log|
    requires Crosses(After(seed, es).log, k, asked, acting) && acting - asked < CYCLE
    ensures asked == acting
  {
    hide StampAfter;
    var s := After(seed, es);
    assert RecordOk(s.log, k);
  }

  // A kick is carried out only on the slot, the client and the user id it was asked for.
  lemma KicksHitTheirTarget(seed: uint64, es: seq<Event>, k: nat)
    requires k < |After(seed, es).log| && After(seed, es).log[k].Kicked?
    ensures var log := After(seed, es).log;
            var kicked := log[k];
            && kicked.ticket < k && log[kicked.ticket].KickAsked?
            && log[kicked.ticket] == KickAsked(kicked.slot, log[kicked.ticket].life, kicked.client, kicked.userId)
  {
    hide StampAfter;
    assert RecordOk(After(seed, es).log, k);
  }

  // An avatar is set at most once per read, by the one read then open on the slot, and never after
  // a clear that came later than the read was asked for.
  lemma ClearedReadsAreNeverApplied(seed: uint64, es: seq<Event>, k: nat)
    requires k < |After(seed, es).log| && After(seed, es).log[k].Loaded?
    ensures var log := After(seed, es).log;
            var slot, task := log[k].slot, log[k].task;
            && task < k && log[task].Started? && log[task].slot == slot
            && (forall m :: task < m < k ==> log[m] != Wiped(slot) && !Ends(log[m], slot, task))
  {
    hide StampAfter;
    var s := After(seed, es);
    assert RecordOk(s.log, k);
    assert forall m :: 0 <= m < k ==> s.log[..k][m] == s.log[m];
  }

  // In every reachable state at most one read per slot is pending.
  lemma OneReadPerSlot(seed: uint64, es: seq<Event>, slot: nat, a: nat, b: nat)
    requires slot < MAX_SLOTS
    requires Open(After(seed, es).log, slot, a) && Open(After(seed, es).log, slot, b)
    ensures a == b
  {
    hide StampAfter;
    var s := After(seed, es);
    assert EntryOk(s, slot);
  }

  // The bound is exact: a setter is accepted on a managed slot if and only if the occupant's
  // lifetime is the caller's own or lies full cycles of stamps after it.
  lemma HandleIsAcceptedExactly(seed: uint64, es: seq<Event>, k: nat)
    requires k < |After(seed, es).handles|
    ensures var s := After(seed, es); var h := s.handles[k];
            h.slot < MAX_SLOTS &&
            (Accepts(s, h) <==>
              s.connected && s.slots[h.slot].managed && h.incarnation != 0 && (s.lives[h.slot] - h.life) % CYCLE == 0)
  {
    var s := After(seed, es);
    var h := s.handles[k];
    assert HandleOk(s, h);
    if h.incarnation != 0 && s.slots[h.slot].managed {
      SameStampReaches(s, h);
    }
  }
}
