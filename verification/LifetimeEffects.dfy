/** What is asked for in a bot lifetime does happen, exactly if that lifetime is still the present one
    when its turn comes. */
module LifetimeEffects {
  import opened Prelude
  import opened Engine
  import opened Manager
  import opened Incarnation
  import opened AvatarReads
  import opened Lifetimes

  // An adoption makes the slot managed in a lifetime of its own, whose number is that of the adoption and
  // whose stamp is the next; other slots go on.
  lemma LifetimesBegin(seed: uint64, es: seq<Event>, slot: nat, steamId: uint64, i: nat)
    requires slot < MAX_SLOTS && i < MAX_SLOTS
    ensures var s := After(seed, es);
            var s' := Step(s, Adopt(slot, steamId));
            && s'.adoptions == s.adoptions + 1
            && (if i == slot
                then && s'.slots[i].managed && s'.slots[i].steamId == steamId && s'.lives[i] == s.adoptions + 1
                     && s'.slots[i].incarnation == StampAfter(seed, s.adoptions + 1) != 0
                else s'.slots[i] == s.slots[i] && s'.lives[i] == s.lives[i])
  {
    var s := After(seed, es);
    SeedStays(seed, es);
    StampsAgree(seed, s.adoptions + 1, s.adoptions + 1);
    assert StampAfter(seed, s.adoptions + 1) == NextIncarnation(s.counter);
    hide After, StampAfter, NextIncarnation, Inv;
  }

  // A release ends it, and a release of all ends every one; the connection to the plugin does neither.
  lemma LifetimesEnd(s: State, slot: nat, i: nat, connected: bool)
    requires Inv(s) && slot < MAX_SLOTS && i < MAX_SLOTS
    ensures var one, all := Step(s, Release(slot)), Step(s, Lifetimes.ReleaseAll);
            && (if i == slot then !one.slots[i].managed && one.slots[i].incarnation == 0
                else one.slots[i] == s.slots[i])
            && !all.slots[i].managed && all.slots[i].incarnation == 0
            && one.lives == all.lives == s.lives && one.adoptions == all.adoptions == s.adoptions
    ensures Step(s, Connect(connected)) == s.(connected := connected)
  {
    hide StampAfter;
  }

  // A caller that can reach a slot takes a handle of its present lifetime, or of none.
  lemma HandlesAreTaken(seed: uint64, es: seq<Event>, slot: nat)
    requires slot < MAX_SLOTS
    ensures var s := After(seed, es);
            var s' := Step(s, Hold(slot));
            if s.connected
            then s' == s.(handles := s.handles + [Handle(slot, s.slots[slot].incarnation, s.lives[slot])])
            else s' == s
  {
    hide After, StampAfter;
  }

  // A setter call takes effect exactly if the slot can be reached and its bot is the one that the handle
  // was taken from, or lies full cycles of stamps later; otherwise it does nothing.
  lemma SettersTakeEffect(seed: uint64, es: seq<Event>, k: nat)
    requires k < |After(seed, es).handles|
    ensures var s := After(seed, es);
            var h, s' := s.handles[k], Step(s, Use(k));
            && h.slot < MAX_SLOTS
            && if && s.connected && s.slots[h.slot].managed && h.incarnation != 0
                  && (s.lives[h.slot] - h.life) % CYCLE == 0
               then s' == s.(log := s.log + [Set(h.slot, h.life, s.lives[h.slot])]) else s' == s
  {
    HandleIsAcceptedExactly(seed, es, k);
    hide After, Inv, StampAfter;
  }

  // A kick is queued exactly if the slot is managed by a bot that is not SourceTV and the command is
  // there; it names the client, the user id and the lifetime it is meant for, and comes last.
  lemma KicksAreQueued(seed: uint64, es: seq<Event>, slot: nat, client: Option<Client>, ready: bool)
    ensures var s := After(seed, es);
            var s' := Step(s, QueueKick(slot, client, ready));
            if IsSlot(slot) && ready && s.slots[slot].managed && client.Some? && !client.value.hltv
            then
              var c, stamp := client.value, s.slots[slot].incarnation;
              && stamp != 0
              && s' == s.(queued := s.queued + [Kick(Handle(slot, stamp, s.lives[slot]), c.id, c.userId, |s.log|)],
                          log := s.log + [KickAsked(slot, s.lives[slot], c.id, c.userId)])
            else s' == s
  {
    var s := After(seed, es);
    if IsSlot(slot) && s.slots[slot].managed {
      StampsAgree(seed, s.lives[slot], s.lives[slot]);
      SeedStays(seed, es);
    }
    hide StampAfter, After;
  }

  lemma {:induction false} RunKeepsSeed(s: State, es: seq<Event>)
    requires Inv(s)
    ensures Run(s, es).seed == s.seed
    decreases |es|
  {
    hide EntryOk, RecordOk, StampAfter;
    if es != [] {
      Lifetimes.StepKeeps(s, es[0]);
      StepKeepsSeed(s, es[0]);
      RunKeepsSeed(Step(s, es[0]), es[1..]);
    }
  }

  lemma StepKeepsSeed(s: State, e: Event)
    requires Inv(s)
    ensures Step(s, e).seed == s.seed
  {
    hide TrySet, Finish, NextIncarnation, StampAfter;
  }

  lemma SeedStays(seed: uint64, es: seq<Event>)
    ensures After(seed, es).seed == seed
  {
    StartIsGood(seed);
    RunKeepsSeed(Start(seed), es);
  }

  // A drain takes over all that is queued, in order, and a release of all bots drops it.
  lemma DrainsTakeAll(s: State, ready: bool)
    requires Inv(s)
    ensures Step(s, BeginDrain(ready)) ==
              s.(queued := [], draining := if ready then s.queued + s.draining else s.draining)
    ensures Step(s, Lifetimes.ReleaseAll).queued == []
  {
    hide StampAfter;
  }

  // The next kick of a drain is carried out exactly if the slot's bot is the one it was asked for, up to
  // full cycles of stamps, with the same client and user id, not SourceTV, and it has a name; otherwise
  // it is dropped. Nothing else happens.
  lemma KicksAreCarriedOut(seed: uint64, es: seq<Event>, client: Option<Client>, named: bool)
    requires After(seed, es).draining != []
    ensures var s := After(seed, es);
            var k, s' := s.draining[0], Step(s, DrainNext(client, named));
            && k.handle.slot < MAX_SLOTS
            && var hits := && s.slots[k.handle.slot].managed && named
                           && client.Some? && !client.value.hltv
                           && client.value.id == k.client && client.value.userId == k.userId
                           && (s.lives[k.handle.slot] - k.handle.life) % CYCLE == 0;
               s' == s.(draining := s.draining[1..],
                        log := if !hits then s.log
                               else s.log + [Kicked(k.handle.slot, k.ticket, s.lives[k.handle.slot], k.client,
                                                    k.userId)])
  {
    var s := After(seed, es);
    var k := s.draining[0];
    assert KickOk(s, k);
    if s.slots[k.handle.slot].managed {
      SameStampReaches(s, k.handle);
    }
    hide After, Inv, StampAfter, KickOk;
  }

  // The read that is pending on a slot, when it finishes, is used exactly if the slot can be reached, its
  // bot is the one that asked, up to full cycles of stamps, no clear came since, and the bytes are
  // acceptable; then they are the slot's request. Either way it is over.
  lemma ReadsAreUsed(seed: uint64, es: seq<Event>, slot: nat, outcome: Outcome)
    requires slot < MAX_SLOTS && After(seed, es).entries[slot].task.Some?
    ensures var s := After(seed, es);
            var task, s' := s.entries[slot].task.value, Step(s, FinishRead(slot, outcome));
            var before, after := s.slots[slot], s'.slots[slot];
            && task < |s.log| && s.log[task].Started? && s.log[task].slot == slot
            && s' == s.(entries := s.entries[slot := NO_READ], slots := s.slots[slot := after], log := s'.log)
            && if && s.connected && before.managed && NotWiped(s.log, slot, task)
                  && (s.lives[slot] - s.log[task].life) % CYCLE == 0
                  && outcome.Bytes? && IsAcceptable(outcome.data)
               then Asks(before, after, outcome.data) && s'.log == s.log + [Loaded(slot, task, s.lives[slot])]
               else after == before && s'.log == s.log + [Ended(slot, task)]
  {
    var s := After(seed, es);
    var e := s.entries[slot];
    var task := e.task.value;
    assert EntryOk(s, slot) && Open(s.log, slot, task);
    if e.incarnation != 0 && s.slots[slot].managed {
      SameStampReaches(s, Handle(slot, e.incarnation, s.log[task].life));
    }
    FinishedReadsAreUsed(s.connected, e, s.slots[slot], Some(outcome));
    hide After, Inv, StampAfter, Finish, IsAcceptable, NotWiped;
  }

  // Clearing by "0" empties the request, whether or not a read is pending.
  lemma ClearsEmpty(seed: uint64, es: seq<Event>, slot: nat)
    requires slot < MAX_SLOTS && After(seed, es).connected && After(seed, es).slots[slot].managed
    ensures var s := After(seed, es);
            var s' := Step(s, TrySetAvatar(slot, Zero));
            Asks(s.slots[slot], s'.slots[slot], []) && s'.log == s.log + [Wiped(slot)]
  {
    var s := After(seed, es);
    StampsAgree(seed, s.lives[slot], s.lives[slot]);
    SeedStays(seed, es);
    WishesAreObeyed(s.entries[slot], s.slots[slot], Zero, |s.log|);
    hide After, StampAfter, TrySet;
  }
}
