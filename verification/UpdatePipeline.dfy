/**
 Character updates on their way from a gateway to the character server: the updates barrier merges them per character
 and sends what it holds on every tick (apps/gateway/service/characters-updates-barrier.go); consumers apply what they
 receive (apps/charserver/repo/online-characters_inmem.go, apps/charserver/service/friends-cache.go).
 */
module UpdatePipeline {
  import opened Words

  type Guid = uint64

  datatype Update = Update(
    id: Guid, lvl: Option<uint8>, mapId: Option<uint32>, area: Option<uint32>, zone: Option<uint32>,
    curHP: Option<uint32>, maxHP: Option<uint32>, powerType: Option<uint8>, curPower: Option<uint32>,
    maxPower: Option<uint32>)

  /** An update of nothing. */
  function Blank(id: Guid): Update {
    Update(id, None, None, None, None, None, None, None, None, None)
  }

  /** mergeCharUpdates. */
  function Merge(a: Update, b: Update): Update {
    Update(
      a.id, Later(a.lvl, b.lvl), Later(a.mapId, b.mapId), Later(a.area, b.area), Later(a.zone, b.zone),
      Later(a.curHP, b.curHP), Later(a.maxHP, b.maxHP), Later(a.powerType, b.powerType),
      Later(a.curPower, b.curPower), Later(a.maxPower, b.maxPower))
  }

  function Over<T>(o: Option<T>, x: T): T {
    if o.Some? then o.value else x
  }

  // ----- consumers -----

  /** What the online-characters repository changes on an update. */
  datatype Character = Character(level: uint8, mapId: uint32, zone: uint32)

  function ApplyToCharacter(c: Character, u: Update): Character {
    Character(Over(u.lvl, c.level), Over(u.mapId, c.mapId), Over(u.zone, c.zone))
  }

  /** What the friends cache changes: its area is the zone, or the area of an update without zone. */
  datatype Friend = Friend(level: uint8, area: uint32)

  function ApplyToFriend(f: Friend, u: Update): Friend {
    Friend(Over(u.lvl, f.level), Over(Later(u.area, u.zone), f.area))
  }

  /** A consumer handles a list of updates in order and skips characters it does not know. */
  function Handle<R>(ap: (R, Update) -> R, store: map<Guid, R>, u: Update): map<Guid, R> {
    if u.id in store then store[u.id := ap(store[u.id], u)] else store
  }

  function Deliver<R>(ap: (R, Update) -> R, store: map<Guid, R>, us: seq<Update>): map<Guid, R>
    decreases |us|
  {
    if us == [] then store else Deliver(ap, Handle(ap, store, us[0]), us[1..])
  }

  // ----- merging means the same as applying both -----

  /** On the updates that ok admits, applying two in a row is applying their merge. */
  ghost predicate Lawful<R(!new)>(ap: (R, Update) -> R, ok: Update -> bool) {
    && (forall a, b :: ok(a) && ok(b) ==> ok(Merge(a, b)))
    && (forall r, a, b :: ok(a) && ok(b) ==> ap(ap(r, a), b) == ap(r, Merge(a, b)))
  }

  predicate Any(u: Update) { true }

  /** Area is sent only together with zone, as UpdateZone does. */
  predicate AreaWithZone(u: Update) { u.area.Some? ==> u.zone.Some? }

  lemma CharacterIsLawful()
    ensures Lawful(ApplyToCharacter, Any)
  {
    forall r: Character, a, b ensures ApplyToCharacter(ApplyToCharacter(r, a), b) == ApplyToCharacter(r, Merge(a, b)) {
    }
  }

  lemma FriendIsLawful()
    ensures Lawful(ApplyToFriend, AreaWithZone)
  {
    forall r: Friend, a, b | AreaWithZone(a) && AreaWithZone(b)
      ensures ApplyToFriend(ApplyToFriend(r, a), b) == ApplyToFriend(r, Merge(a, b))
    {
      FriendMergesExactly(r, a, b);
    }
  }

  /** The friends cache loses a merged area only when a zone of an earlier, different place is still in the merge. */
  lemma FriendMergesExactly(f: Friend, a: Update, b: Update)
    ensures ApplyToFriend(ApplyToFriend(f, a), b) == ApplyToFriend(f, Merge(a, b))
            <==> !(b.zone.None? && b.area.Some? && a.zone.Some? && a.zone.value != b.area.value)
  {
  }

  lemma MergeIsIdempotent(a: Update)
    ensures Merge(a, a) == a
  {
  }

  // ----- runs of the barrier -----

  /** A tick publishes the listed entries; when it is not done, a publish failed and the buffer is kept. */
  datatype Step = Raw(u: Update) | Tick(sent: seq<Update>, done: bool)

  datatype Gate<R> = Gate(buffer: map<Guid, Update>, store: map<Guid, R>)

  function Buffered(buffer: map<Guid, Update>, u: Update): map<Guid, Update> {
    buffer[u.id := if u.id in buffer then Merge(buffer[u.id], u) else u]
  }

  ghost predicate Distinct(us: seq<Update>) {
    forall i, j :: 0 <= i < j < |us| ==> us[i].id != us[j].id
  }

  ghost predicate Mentions(us: seq<Update>, g: Guid) {
    exists i :: 0 <= i < |us| && us[i].id == g
  }

  /** What send can have published: entries of the buffer, none twice, and all of them when no publish failed. */
  ghost predicate Sends(buffer: map<Guid, Update>, sent: seq<Update>, done: bool) {
    && Distinct(sent)
    && (forall i :: 0 <= i < |sent| ==> sent[i].id in buffer && sent[i] == buffer[sent[i].id])
    && (done ==> forall g :: g in buffer ==> Mentions(sent, g))
  }

  function Exec<R>(ap: (R, Update) -> R, s: Gate<R>, step: Step): Gate<R> {
    match step
    case Raw(u) => s.(buffer := Buffered(s.buffer, u))
    case Tick(sent, done) => Gate(if done then map[] else s.buffer, Deliver(ap, s.store, sent))
  }

  function Run<R>(ap: (R, Update) -> R, s: Gate<R>, steps: seq<Step>): Gate<R>
    decreases |steps|
  {
    if steps == [] then s else Run(ap, Exec(ap, s, steps[0]), steps[1..])
  }

  ghost predicate PossibleStep<R>(ok: Update -> bool, s: Gate<R>, step: Step) {
    match step
    case Raw(u) => ok(u)
    case Tick(sent, done) => Sends(s.buffer, sent, done)
  }

  ghost predicate PossibleRun<R>(ap: (R, Update) -> R, ok: Update -> bool, s: Gate<R>, steps: seq<Step>)
    decreases |steps|
  {
    steps == [] || (PossibleStep(ok, s, steps[0]) && PossibleRun(ap, ok, Exec(ap, s, steps[0]), steps[1..]))
  }

  /** The raw updates of a run, in order. */
  function Raws(steps: seq<Step>): seq<Update> {
    if steps == [] then []
    else (if steps[0].Raw? then [steps[0].u] else []) + Raws(steps[1..])
  }

  // ----- the barrier is transparent -----

  /** What the consumer's record of g will be once the buffer is sent. */
  function Settled<R>(ap: (R, Update) -> R, s: Gate<R>, g: Guid): R
    requires g in s.store
  {
    if g in s.buffer then ap(s.store[g], s.buffer[g]) else s.store[g]
  }

  /** want is the store that has applied every raw update so far. */
  ghost predicate Inv<R>(ap: (R, Update) -> R, ok: Update -> bool, s: Gate<R>, want: map<Guid, R>) {
    && (forall g :: g in s.buffer ==> s.buffer[g].id == g && ok(s.buffer[g]))
    && s.store.Keys == want.Keys
    && (forall g :: g in s.store ==> Settled(ap, s, g) == want[g])
  }

  lemma {:induction false} DeliverKeys<R>(ap: (R, Update) -> R, store: map<Guid, R>, us: seq<Update>)
    ensures Deliver(ap, store, us).Keys == store.Keys
    decreases |us|
  {
    if us != [] { DeliverKeys(ap, Handle(ap, store, us[0]), us[1..]); }
  }

  lemma {:induction false} DeliverMisses<R>(ap: (R, Update) -> R, store: map<Guid, R>, us: seq<Update>, g: Guid)
    requires g in store && !Mentions(us, g)
    ensures g in Deliver(ap, store, us) && Deliver(ap, store, us)[g] == store[g]
    decreases |us|
  {
    if us != [] {
      assert us[0].id != g;
      assert forall i :: 0 <= i < |us[1..]| ==> us[1..][i] == us[i + 1];
      DeliverMisses(ap, Handle(ap, store, us[0]), us[1..], g);
    }
  }

  lemma {:induction false} DeliverHits<R>(ap: (R, Update) -> R, store: map<Guid, R>, us: seq<Update>, i: nat)
    requires i < |us| && us[i].id in store && Distinct(us)
    ensures us[i].id in Deliver(ap, store, us)
    ensures Deliver(ap, store, us)[us[i].id] == ap(store[us[i].id], us[i])
    decreases |us|
  {
    var tail := us[1..];
    assert forall j :: 0 <= j < |tail| ==> tail[j] == us[j + 1];
    if i == 0 {
      DeliverMisses(ap, Handle(ap, store, us[0]), tail, us[0].id);
    } else {
      DeliverHits(ap, Handle(ap, store, us[0]), tail, i - 1);
    }
  }

  lemma RawKeepsInv<R(!new)>(ap: (R, Update) -> R, ok: Update -> bool, s: Gate<R>, want: map<Guid, R>, u: Update)
    requires Lawful(ap, ok) && Inv(ap, ok, s, want) && ok(u)
    ensures Inv(ap, ok, Exec(ap, s, Raw(u)), Handle(ap, want, u))
  {
    var s' := Exec(ap, s, Raw(u));
    var want' := Handle(ap, want, u);
    forall g | g in s'.store ensures Settled(ap, s', g) == want'[g] {
      if g == u.id && g in s.buffer {
        assert ap(ap(s.store[g], s.buffer[g]), u) == ap(s.store[g], Merge(s.buffer[g], u));
      } else {
        assert Settled(ap, s, g) == want[g];
      }
    }
  }

  lemma TickKeepsInv<R(!new)>(ap: (R, Update) -> R, ok: Update -> bool, s: Gate<R>, want: map<Guid, R>, step: Step)
    requires Lawful(ap, ok) && Inv(ap, ok, s, want) && step.Tick? && Sends(s.buffer, step.sent, step.done)
    ensures Inv(ap, ok, Exec(ap, s, step), want)
  {
    var s' := Exec(ap, s, step);
    DeliverKeys(ap, s.store, step.sent);
    forall g | g in s'.store ensures Settled(ap, s', g) == want[g] {
      assert Settled(ap, s, g) == want[g];
      if Mentions(step.sent, g) {
        var i :| 0 <= i < |step.sent| && step.sent[i].id == g;
        DeliverHits(ap, s.store, step.sent, i);
        var b := s.buffer[g];
        MergeIsIdempotent(b);
        assert ap(ap(s.store[g], b), b) == ap(s.store[g], b);
      } else {
        DeliverMisses(ap, s.store, step.sent, g);
      }
    }
  }

  lemma {:induction false} RunKeepsInv<R(!new)>(
      ap: (R, Update) -> R, ok: Update -> bool, s: Gate<R>, want: map<Guid, R>, steps: seq<Step>)
    requires Lawful(ap, ok) && Inv(ap, ok, s, want) && PossibleRun(ap, ok, s, steps)
    ensures Inv(ap, ok, Run(ap, s, steps), Deliver(ap, want, Raws(steps)))
    decreases |steps|
  {
    if steps != [] {
      var s' := Exec(ap, s, steps[0]);
      if steps[0].Raw? {
        RawKeepsInv(ap, ok, s, want, steps[0].u);
        RunKeepsInv(ap, ok, s', Handle(ap, want, steps[0].u), steps[1..]);
        assert Raws(steps)[1..] == Raws(steps[1..]);
      } else {
        TickKeepsInv(ap, ok, s, want, steps[0]);
        RunKeepsInv(ap, ok, s', want, steps[1..]);
        assert Raws(steps) == Raws(steps[1..]);
      }
    }
  }

  /**
   Whatever was merged, batched, sent twice or failed to be sent: once a tick succeeds, every record is what applying
   each raw update in order makes it.
   */
  lemma BarrierIsTransparent<R(!new)>(
      ap: (R, Update) -> R, ok: Update -> bool, store: map<Guid, R>, steps: seq<Step>, sent: seq<Update>)
    requires Lawful(ap, ok) && PossibleRun(ap, ok, Gate(map[], store), steps)
    requires Sends(Run(ap, Gate(map[], store), steps).buffer, sent, true)
    ensures Exec(ap, Run(ap, Gate(map[], store), steps), Tick(sent, true)).store == Deliver(ap, store, Raws(steps))
  {
    var want := Deliver(ap, store, Raws(steps));
    RunKeepsInv(ap, ok, Gate(map[], store), store, steps);
    var s := Run(ap, Gate(map[], store), steps);
    TickKeepsInv(ap, ok, s, want, Tick(sent, true));
    var s' := Exec(ap, s, Tick(sent, true));
    assert s'.buffer == map[];
    forall g | g in s'.store ensures s'.store[g] == want[g] {
      assert Settled(ap, s', g) == want[g];
    }
  }

  lemma OnlineCharactersAreCurrent(store: map<Guid, Character>, steps: seq<Step>, sent: seq<Update>)
    requires PossibleRun(ApplyToCharacter, Any, Gate(map[], store), steps)
    requires Sends(Run(ApplyToCharacter, Gate(map[], store), steps).buffer, sent, true)
    ensures Deliver(ApplyToCharacter, Run(ApplyToCharacter, Gate(map[], store), steps).store, sent)
            == Deliver(ApplyToCharacter, store, Raws(steps))
  {
    CharacterIsLawful();
    BarrierIsTransparent(ApplyToCharacter, Any, store, steps, sent);
  }

  lemma FriendsAreCurrent(store: map<Guid, Friend>, steps: seq<Step>, sent: seq<Update>)
    requires PossibleRun(ApplyToFriend, AreaWithZone, Gate(map[], store), steps)
    requires Sends(Run(ApplyToFriend, Gate(map[], store), steps).buffer, sent, true)
    ensures Deliver(ApplyToFriend, Run(ApplyToFriend, Gate(map[], store), steps).store, sent)
            == Deliver(ApplyToFriend, store, Raws(steps))
  {
    FriendIsLawful();
    BarrierIsTransparent(ApplyToFriend, AreaWithZone, store, steps, sent);
  }

  /** An area without zone that meets a buffered zone is lost: the merged update shows the older zone. */
  lemma LoneAreaIsLost(g: Guid, f: Friend, zone: uint32, area: uint32)
    requires zone != area
    ensures var steps := [Raw(Blank(g).(zone := Some(zone))), Raw(Blank(g).(area := Some(area)))];
            var s := Run(ApplyToFriend, Gate(map[], map[g := f]), steps);
            && g in s.buffer && Sends(s.buffer, [s.buffer[g]], true)
            && Deliver(ApplyToFriend, s.store, [s.buffer[g]]) == map[g := f.(area := zone)]
            && Deliver(ApplyToFriend, map[g := f], Raws(steps)) == map[g := f.(area := area)]
  {
    var a, b := Blank(g).(zone := Some(zone)), Blank(g).(area := Some(area));
    TwoRaws(ApplyToFriend, g, f, a, b);
    assert Mentions([Merge(a, b)], g) by { assert [Merge(a, b)][0].id == g; }
  }

  lemma TwoRaws<R>(ap: (R, Update) -> R, g: Guid, r: R, a: Update, b: Update)
    requires a.id == g == b.id
    ensures Run(ap, Gate(map[], map[g := r]), [Raw(a), Raw(b)]) == Gate(map[g := Merge(a, b)], map[g := r])
    ensures Deliver(ap, map[g := r], Raws([Raw(a), Raw(b)])) == map[g := ap(ap(r, a), b)]
    ensures Deliver(ap, map[g := r], [Merge(a, b)]) == map[g := ap(r, Merge(a, b))]
  {
    var start, mid := Gate(map[], map[g := r]), Gate(map[g := a], map[g := r]);
    assert [Raw(a), Raw(b)][1..] == [Raw(b)];
    assert Exec(ap, start, Raw(a)) == mid;
    OneRaw(ap, mid, b);
    assert Exec(ap, mid, Raw(b)).buffer == map[g := Merge(a, b)];
    assert Raws([Raw(a), Raw(b)]) == [a] + Raws([Raw(b)]);
    assert ([a] + [b])[1..] == [b];
    OneDelivery(ap, g, ap(r, a), b);
    OneDelivery(ap, g, r, Merge(a, b));
    assert Handle(ap, map[g := r], a) == map[g := ap(r, a)];
  }

  lemma OneRaw<R>(ap: (R, Update) -> R, s: Gate<R>, u: Update)
    ensures Run(ap, s, [Raw(u)]) == Exec(ap, s, Raw(u)) && Raws([Raw(u)]) == [u]
  {
    assert [Raw(u)][1..] == [];
  }

  lemma OneDelivery<R>(ap: (R, Update) -> R, g: Guid, r: R, u: Update)
    requires u.id == g
    ensures Deliver(ap, map[g := r], [u]) == map[g := ap(r, u)]
  {
    assert [u][1..] == [];
    assert Handle(ap, map[g := r], u) == map[g := ap(r, u)];
  }

  // ----- batches -----

  function Concat(batches: seq<seq<Update>>): seq<Update> {
    if batches == [] then [] else Concat(batches[..|batches| - 1]) + batches[|batches| - 1]
  }

  /** The consumer sees one batch after the other. */
  function DeliverBatches<R>(ap: (R, Update) -> R, store: map<Guid, R>, batches: seq<seq<Update>>): map<Guid, R>
    decreases |batches|
  {
    if batches == [] then store
    else Deliver(ap, DeliverBatches(ap, store, batches[..|batches| - 1]), batches[|batches| - 1])
  }

  lemma {:induction false} DeliverConcat<R>(ap: (R, Update) -> R, store: map<Guid, R>, us: seq<Update>, vs: seq<Update>)
    ensures Deliver(ap, store, us + vs) == Deliver(ap, Deliver(ap, store, us), vs)
    decreases |us|
  {
    if us == [] {
      assert us + vs == vs;
    } else {
      assert (us + vs)[1..] == us[1..] + vs;
      DeliverConcat(ap, Handle(ap, store, us[0]), us[1..], vs);
    }
  }

  /** Where the batches are cut does not matter. */
  lemma {:induction false} BatchingIsInvisible<R>(ap: (R, Update) -> R, store: map<Guid, R>, batches: seq<seq<Update>>)
    ensures DeliverBatches(ap, store, batches) == Deliver(ap, store, Concat(batches))
    decreases |batches|
  {
    if batches != [] {
      var rest := batches[..|batches| - 1];
      BatchingIsInvisible(ap, store, rest);
      DeliverConcat(ap, store, Concat(rest), batches[|batches| - 1]);
    }
  }
}
