/**
 The producing end of the update pipeline (apps/gateway/session/interceptors.go): packets from the world server change
 the session's picture of its character, and the differences go to the updates barrier. Together with the barrier and
 the consumers this makes every record follow the session.
 */
module StatsTracking {
  import opened Words
  import opened PacketCodec
  import opened UpdateObject
  import opened UpdateObjectParser
  import opened UpdatePipeline

  /** The tracked part of a session's character. */
  datatype Hero = Hero(
    level: uint8, mapId: uint32, zone: uint32, curHP: uint32, maxHP: uint32, powerType: uint8, curPower: uint32,
    maxPower: uint32)

  const POWER_UNKNOWN: uint8 := 0xFF

  /** A consumer that keeps everything an update can carry. */
  function Overlay(c: Hero, u: Update): Hero {
    Hero(
      Over(u.lvl, c.level), Over(u.mapId, c.mapId), Over(u.zone, c.zone), Over(u.curHP, c.curHP),
      Over(u.maxHP, c.maxHP), Over(u.powerType, c.powerType), Over(u.curPower, c.curPower),
      Over(u.maxPower, c.maxPower))
  }

  // ----- packets -----

  datatype Packet = WorldStates(data: seq<byte>) | LevelUp(data: seq<byte>) | Objects(data: seq<byte>) | Snapshot

  function Pick<T>(ps: map<nat, T>, i: nat, x: T): T {
    if i < POWERS && i in ps then ps[i] else x
  }

  /** What an update object says about the character; powers are those of the power type it ends up with. */
  function Observe(c: Hero, s: UnitStats): Hero {
    var kind := Over(s.powerType, c.powerType);
    c.(
      level := if s.level.Some? && s.level.value != 0 then s.level.value % 256 else c.level,
      curHP := Over(s.curHP, c.curHP),
      maxHP := Over(s.maxHP, c.maxHP),
      powerType := kind,
      curPower := Pick(s.powers, kind, c.curPower),
      maxPower := Pick(s.maxPowers, kind, c.maxPower))
  }

  function Places(data: seq<byte>): (uint32, uint32, uint32) {
    var (m, s1) := U32(Some(data));
    var (z, s2) := U32(s1);
    var (a, _) := U32(s2);
    (m, z, a)
  }

  /** The session's character after a packet. */
  function After(g: Guid, c: Hero, p: Packet): Hero {
    match p
    case WorldStates(data) => var (m, z, _) := Places(data); c.(mapId := m, zone := z)
    case LevelUp(data) => c.(level := U32(Some(data)).0 % 256)
    case Objects(data) => var (s, outcome) := Parse(data, g); if outcome.Finished? then Observe(c, s) else c
    case Snapshot => c
  }

  function Changed<T(==)>(x: T, y: T): Option<T> {
    if x == y then None else Some(y)
  }

  /** The fields in which c2 differs from c1, the place excepted. */
  function Diff(g: Guid, c1: Hero, c2: Hero): Update {
    Update(
      g, Changed(c1.level, c2.level), None, None, None, Changed(c1.curHP, c2.curHP), Changed(c1.maxHP, c2.maxHP),
      Changed(c1.powerType, c2.powerType), Changed(c1.curPower, c2.curPower), Changed(c1.maxPower, c2.maxPower))
  }

  function When(b: bool, u: Update): seq<Update> {
    if b then [u] else []
  }

  /** All that is known: hit points and power are unknown until first seen. */
  function Known(g: Guid, c: Hero): Update {
    var u := Blank(g).(lvl := Some(c.level));
    var v := if c.maxHP != 0 then u.(curHP := Some(c.curHP), maxHP := Some(c.maxHP)) else u;
    if c.powerType != POWER_UNKNOWN then
      v.(powerType := Some(c.powerType), curPower := Some(c.curPower), maxPower := Some(c.maxPower))
    else v
  }

  /** The updates a packet puts into the barrier. */
  function Emitted(g: Guid, c: Hero, p: Packet): seq<Update> {
    match p
    case WorldStates(data) =>
      var (m, z, a) := Places(data);
      When(m != c.mapId, Blank(g).(mapId := Some(m))) + When(z != c.zone, Blank(g).(area := Some(a), zone := Some(z)))
    case LevelUp(data) =>
      var l := U32(Some(data)).0 % 256;
      When(l != c.level, Blank(g).(lvl := Some(l)))
    case Objects(data) => When(After(g, c, p) != c, Diff(g, c, After(g, c, p)))
    case Snapshot => [Known(g, c)]
  }

  class Session {
    const guid: Guid
    var character: Hero

    method InterceptInitWorldStates(data: seq<byte>) returns (sent: seq<Update>)
      modifies this
      ensures character == After(guid, old(character), WorldStates(data))
      ensures sent == Emitted(guid, old(character), WorldStates(data))
    {
      var mapId, zone, area := ReadPlaces(data);
      sent := [];
      if character.mapId != mapId {
        sent := sent + [Blank(guid).(mapId := Some(mapId))];
        character := character.(mapId := mapId);
      }
      if character.zone != zone {
        sent := sent + [Blank(guid).(area := Some(area), zone := Some(zone))];
        character := character.(zone := zone);
      }
    }

    method ReadPlaces(data: seq<byte>) returns (mapId: uint32, zone: uint32, area: uint32)
      ensures (mapId, zone, area) == Places(data)
    {
      WordSizes();
      var r := new Reader(data);
      mapId := r.Uint(4);
      zone := r.Uint(4);
      area := r.Uint(4);
    }

    method InterceptLevelUpInfo(data: seq<byte>) returns (sent: seq<Update>)
      modifies this
      ensures character == After(guid, old(character), LevelUp(data))
      ensures sent == Emitted(guid, old(character), LevelUp(data))
    {
      var r := new Reader(data);
      var lvl := r.Uint(4);
      sent := [];
      if character.level != lvl % 256 {
        sent := [Blank(guid).(lvl := Some(lvl % 256))];
        character := character.(level := lvl % 256);
      }
    }

    /** Field by field, remembering what changed. */
    method AbsorbHealth(upd: UnitStats, delta: Update, changed: bool) returns (d: Update, b: bool)
      modifies this
      ensures character == old(character).(
                curHP := Over(upd.curHP, old(character).curHP), maxHP := Over(upd.maxHP, old(character).maxHP))
      ensures b == (changed || character != old(character))
      ensures d == delta.(
                curHP := Later(delta.curHP, Changed(old(character).curHP, character.curHP)),
                maxHP := Later(delta.maxHP, Changed(old(character).maxHP, character.maxHP)))
    {
      d, b := delta, changed;
      if upd.curHP.Some? && upd.curHP.value != character.curHP {
        character := character.(curHP := upd.curHP.value);
        d, b := d.(curHP := upd.curHP), true;
      }
      if upd.maxHP.Some? && upd.maxHP.value != character.maxHP {
        character := character.(maxHP := upd.maxHP.value);
        d, b := d.(maxHP := upd.maxHP), true;
      }
    }

    method AbsorbPowers(upd: UnitStats, delta: Update, changed: bool) returns (d: Update, b: bool)
      modifies this
      ensures character == old(character).(
                curPower := Pick(upd.powers, old(character).powerType, old(character).curPower),
                maxPower := Pick(upd.maxPowers, old(character).powerType, old(character).maxPower))
      ensures b == (changed || character != old(character))
      ensures d == delta.(
                curPower := Later(delta.curPower, Changed(old(character).curPower, character.curPower)),
                maxPower := Later(delta.maxPower, Changed(old(character).maxPower, character.maxPower)))
    {
      d, b := delta, changed;
      var kind := character.powerType;
      if kind < POWERS {
        if kind in upd.powers && upd.powers[kind] != character.curPower {
          character := character.(curPower := upd.powers[kind]);
          d, b := d.(curPower := Some(upd.powers[kind])), true;
        }
        if kind in upd.maxPowers && upd.maxPowers[kind] != character.maxPower {
          character := character.(maxPower := upd.maxPowers[kind]);
          d, b := d.(maxPower := Some(upd.maxPowers[kind])), true;
        }
      }
    }

    method Absorb(upd: UnitStats) returns (delta: Update, changed: bool)
      modifies this
      ensures character == Observe(old(character), upd)
      ensures changed == (character != old(character))
      ensures delta == Diff(guid, old(character), character)
    {
      delta, changed := AbsorbHealth(upd, Blank(guid), false);
      if upd.powerType.Some? && upd.powerType.value != character.powerType {
        character := character.(powerType := upd.powerType.value);
        delta, changed := delta.(powerType := upd.powerType), true;
      }
      delta, changed := AbsorbPowers(upd, delta, changed);
      if upd.level.Some? && upd.level.value != 0 && upd.level.value % 256 != character.level {
        character := character.(level := upd.level.value % 256);
        delta, changed := delta.(lvl := Some(character.level)), true;
      }
    }

    method TrackCharacterStats(data: seq<byte>) returns (sent: seq<Update>)
      modifies this
      ensures character == After(guid, old(character), Objects(data))
      ensures sent == Emitted(guid, old(character), Objects(data))
    {
      var upd, outcome, _ := ParseUpdateObjectStatsForGUID(data, guid);
      if !outcome.Finished? { return []; }
      var delta, changed := Absorb(upd);
      sent := if changed then [delta] else [];
    }

    method PublishCharacterStatsSnapshot() returns (sent: seq<Update>)
      ensures sent == Emitted(guid, character, Snapshot)
    {
      var u := Blank(guid).(lvl := Some(character.level));
      if character.maxHP != 0 {
        u := u.(curHP := Some(character.curHP), maxHP := Some(character.maxHP));
      }
      if character.powerType != POWER_UNKNOWN {
        u := u.(powerType := Some(character.powerType), curPower := Some(character.curPower),
                maxPower := Some(character.maxPower));
      }
      sent := [u];
    }
  }

  // ----- views of the character -----

  /** A consumer whose record is a function of the character, and whose updates commute with that. */
  ghost predicate Views<R(!new)>(view: Hero -> R, ap: (R, Update) -> R) {
    && Lawful(ap, AreaWithZone)
    && (forall c, u :: AreaWithZone(u) ==> ap(view(c), u) == view(Overlay(c, u)))
  }

  function Whole(c: Hero): Hero { c }
  function AsCharacter(c: Hero): Character { Character(c.level, c.mapId, c.zone) }
  function AsFriend(c: Hero): Friend { Friend(c.level, c.zone) }

  lemma WholeView()
    ensures Views(Whole, Overlay)
  {
    forall r: Hero, a, b ensures Overlay(Overlay(r, a), b) == Overlay(r, Merge(a, b)) {
    }
  }

  lemma CharacterView()
    ensures Views(AsCharacter, ApplyToCharacter)
  {
    CharacterIsLawful();
    forall r: Character, a, b ensures ApplyToCharacter(ApplyToCharacter(r, a), b) == ApplyToCharacter(r, Merge(a, b)) {
      assert Any(a) && Any(b);
    }
  }

  lemma FriendView()
    ensures Views(AsFriend, ApplyToFriend)
  {
    FriendIsLawful();
  }

  // ----- what is sent is what changed -----

  function Fold(c: Hero, us: seq<Update>): Hero
    decreases |us|
  {
    if us == [] then c else Fold(Overlay(c, us[0]), us[1..])
  }

  ghost predicate About(g: Guid, us: seq<Update>) {
    forall i :: 0 <= i < |us| ==> us[i].id == g && AreaWithZone(us[i])
  }

  lemma Fold2(c: Hero, a: seq<Update>, b: seq<Update>)
    requires |a| <= 1 && |b| <= 1
    ensures Fold(c, a + b) == Fold(Fold(c, a), b)
  {
    if a == [] {
      assert a + b == b;
    } else {
      assert (a + b)[1..] == b;
      assert a[1..] == [];
    }
  }

  /** Replaying what a packet emitted turns the old character into the new one. */
  lemma EmissionsMirror(g: Guid, c: Hero, p: Packet)
    ensures About(g, Emitted(g, c, p))
    ensures Fold(c, Emitted(g, c, p)) == After(g, c, p)
  {
    match p
    case WorldStates(data) =>
      var (m, z, a) := Places(data);
      Fold2(c, When(m != c.mapId, Blank(g).(mapId := Some(m))),
            When(z != c.zone, Blank(g).(area := Some(a), zone := Some(z))));
    case LevelUp(data) =>
    case Objects(data) =>
    case Snapshot =>
  }

  /** A packet that changes nothing sends nothing, and the other way round; only the snapshot always speaks. */
  lemma SilentIffUnchanged(g: Guid, c: Hero, p: Packet)
    requires !p.Snapshot?
    ensures Emitted(g, c, p) == [] <==> After(g, c, p) == c
  {
  }

  // ----- from the packets to the records -----

  datatype Happening = Seen(who: Guid, p: Packet) | Ticked(sent: seq<Update>, done: bool)

  type Sessions = map<Guid, Hero>

  function React(ss: Sessions, h: Happening): Sessions {
    if h.Seen? && h.who in ss then ss[h.who := After(h.who, ss[h.who], h.p)] else ss
  }

  function Reacts(ss: Sessions, hs: seq<Happening>): Sessions
    decreases |hs|
  {
    if hs == [] then ss else Reacts(React(ss, hs[0]), hs[1..])
  }

  function RawSteps(us: seq<Update>): seq<Step> {
    if us == [] then [] else [Raw(us[0])] + RawSteps(us[1..])
  }

  function StepsOf(ss: Sessions, h: Happening): seq<Step> {
    match h
    case Seen(g, p) => if g in ss then RawSteps(Emitted(g, ss[g], p)) else []
    case Ticked(sent, done) => [Tick(sent, done)]
  }

  /** What the barrier goes through. */
  function Steps(ss: Sessions, hs: seq<Happening>): seq<Step>
    decreases |hs|
  {
    if hs == [] then [] else StepsOf(ss, hs[0]) + Steps(React(ss, hs[0]), hs[1..])
  }

  function Shown<R>(view: Hero -> R, ss: Sessions): map<Guid, R> {
    map g | g in ss :: view(ss[g])
  }

  lemma {:induction false} RawsOfRawSteps(us: seq<Update>)
    ensures Raws(RawSteps(us)) == us
  {
    if us != [] {
      RawsOfRawSteps(us[1..]);
      assert RawSteps(us)[1..] == RawSteps(us[1..]);
    }
  }

  lemma {:induction false} RawsConcat(a: seq<Step>, b: seq<Step>)
    ensures Raws(a + b) == Raws(a) + Raws(b)
  {
    if a == [] {
      assert a + b == b;
    } else {
      RawsConcat(a[1..], b);
      RawsCons(a[0], a[1..] + b);
      assert a + b == [a[0]] + (a[1..] + b);
    }
  }

  lemma RawsCons(step: Step, rest: seq<Step>)
    ensures Raws([step] + rest) == (if step.Raw? then [step.u] else []) + Raws(rest)
  {
    assert ([step] + rest)[1..] == rest;
  }

  /** Delivering updates about one character folds them into its view. */
  lemma {:induction false} DeliverFolds<R(!new)>(
      view: Hero -> R, ap: (R, Update) -> R, ss: Sessions, g: Guid, us: seq<Update>)
    requires Views(view, ap) && About(g, us) && g in ss
    ensures Deliver(ap, Shown(view, ss), us) == Shown(view, ss[g := Fold(ss[g], us)])
    decreases |us|
  {
    if us == [] {
      SetTwice(ss, g, ss[g], ss[g]);
    } else {
      var c := Overlay(ss[g], us[0]);
      HandleShows(view, ap, ss, g, us[0]);
      AboutRest(g, us);
      DeliverFolds(view, ap, ss[g := c], g, us[1..]);
      SetTwice(ss, g, c, Fold(c, us[1..]));
    }
  }

  lemma SetTwice(ss: Sessions, g: Guid, c: Hero, d: Hero)
    ensures ss[g := c][g := d] == ss[g := d]
    ensures g in ss && ss[g] == d ==> ss[g := d] == ss
  {
  }

  lemma AboutRest(g: Guid, us: seq<Update>)
    requires About(g, us) && us != []
    ensures us[0].id == g && AreaWithZone(us[0]) && About(g, us[1..])
  {
  }

  lemma HandleShows<R(!new)>(view: Hero -> R, ap: (R, Update) -> R, ss: Sessions, g: Guid, u: Update)
    requires Views(view, ap) && g in ss && u.id == g && AreaWithZone(u)
    ensures Handle(ap, Shown(view, ss), u) == Shown(view, ss[g := Overlay(ss[g], u)])
  {
    assert ap(view(ss[g]), u) == view(Overlay(ss[g], u));
  }

  lemma StepFollows<R(!new)>(view: Hero -> R, ap: (R, Update) -> R, ss: Sessions, h: Happening)
    requires Views(view, ap)
    ensures Deliver(ap, Shown(view, ss), Raws(StepsOf(ss, h))) == Shown(view, React(ss, h))
  {
    if h.Seen? && h.who in ss {
      var us := Emitted(h.who, ss[h.who], h.p);
      RawsOfRawSteps(us);
      EmissionsMirror(h.who, ss[h.who], h.p);
      DeliverFolds(view, ap, ss, h.who, us);
    }
  }

  lemma {:induction false} RawsFollow<R(!new)>(view: Hero -> R, ap: (R, Update) -> R, ss: Sessions, hs: seq<Happening>)
    requires Views(view, ap)
    ensures Deliver(ap, Shown(view, ss), Raws(Steps(ss, hs))) == Shown(view, Reacts(ss, hs))
    decreases |hs|
  {
    if hs != [] {
      var ss' := React(ss, hs[0]);
      StepFollows(view, ap, ss, hs[0]);
      RawsFollow(view, ap, ss', hs[1..]);
      RawsConcat(StepsOf(ss, hs[0]), Steps(ss', hs[1..]));
      DeliverConcat(ap, Shown(view, ss), Raws(StepsOf(ss, hs[0])), Raws(Steps(ss', hs[1..])));
    }
  }

  // ----- the producer meets the consumers' proviso -----

  ghost predicate Good(steps: seq<Step>) {
    forall i :: 0 <= i < |steps| && steps[i].Raw? ==> AreaWithZone(steps[i].u)
  }

  lemma {:induction false} RawStepsGood(g: Guid, us: seq<Update>)
    requires About(g, us)
    ensures Good(RawSteps(us))
    decreases |us|
  {
    if us != [] {
      assert AreaWithZone(us[0]);
      assert forall i :: 0 <= i < |us[1..]| ==> us[1..][i] == us[i + 1];
      RawStepsGood(g, us[1..]);
    }
  }

  lemma {:induction false} StepsGood(ss: Sessions, hs: seq<Happening>)
    ensures Good(Steps(ss, hs))
    decreases |hs|
  {
    if hs != [] {
      var h := hs[0];
      if h.Seen? && h.who in ss {
        EmissionsMirror(h.who, ss[h.who], h.p);
        RawStepsGood(h.who, Emitted(h.who, ss[h.who], h.p));
      }
      StepsGood(React(ss, h), hs[1..]);
    }
  }

  lemma {:induction false} GoodRuns<R(!new)>(ap: (R, Update) -> R, s: Gate<R>, steps: seq<Step>)
    requires Good(steps) && PossibleRun(ap, Any, s, steps)
    ensures PossibleRun(ap, AreaWithZone, s, steps)
    decreases |steps|
  {
    if steps != [] {
      assert steps[0].Raw? ==> AreaWithZone(steps[0].u);
      assert forall i :: 0 <= i < |steps[1..]| ==> steps[1..][i] == steps[i + 1];
      GoodRuns(ap, Exec(ap, s, steps[0]), steps[1..]);
    }
  }

  /**
   From packet to record: whatever packets the sessions of a gateway see and however its ticks fare, once a tick
   succeeds a consumer that started with views of the characters holds views of the characters as they are now.
   */
  lemma RecordsFollowSessions<R(!new)>(
      view: Hero -> R, ap: (R, Update) -> R, ss: Sessions, hs: seq<Happening>, sent: seq<Update>)
    requires Views(view, ap) && PossibleRun(ap, Any, Gate(map[], Shown(view, ss)), Steps(ss, hs))
    requires Sends(Run(ap, Gate(map[], Shown(view, ss)), Steps(ss, hs)).buffer, sent, true)
    ensures Deliver(ap, Run(ap, Gate(map[], Shown(view, ss)), Steps(ss, hs)).store, sent)
            == Shown(view, Reacts(ss, hs))
  {
    StepsGood(ss, hs);
    GoodRuns(ap, Gate(map[], Shown(view, ss)), Steps(ss, hs));
    BarrierIsTransparent(ap, AreaWithZone, Shown(view, ss), Steps(ss, hs), sent);
    RawsFollow(view, ap, ss, hs);
  }

  lemma OnlineRecordsFollowSessions(ss: Sessions, hs: seq<Happening>, sent: seq<Update>)
    requires PossibleRun(ApplyToCharacter, Any, Gate(map[], Shown(AsCharacter, ss)), Steps(ss, hs))
    requires Sends(Run(ApplyToCharacter, Gate(map[], Shown(AsCharacter, ss)), Steps(ss, hs)).buffer, sent, true)
    ensures Deliver(ApplyToCharacter, Run(ApplyToCharacter, Gate(map[], Shown(AsCharacter, ss)), Steps(ss, hs)).store, sent)
            == Shown(AsCharacter, Reacts(ss, hs))
  {
    CharacterView();
    RecordsFollowSessions(AsCharacter, ApplyToCharacter, ss, hs, sent);
  }

  lemma FriendRecordsFollowSessions(ss: Sessions, hs: seq<Happening>, sent: seq<Update>)
    requires PossibleRun(ApplyToFriend, Any, Gate(map[], Shown(AsFriend, ss)), Steps(ss, hs))
    requires Sends(Run(ApplyToFriend, Gate(map[], Shown(AsFriend, ss)), Steps(ss, hs)).buffer, sent, true)
    ensures Deliver(ApplyToFriend, Run(ApplyToFriend, Gate(map[], Shown(AsFriend, ss)), Steps(ss, hs)).store, sent)
            == Shown(AsFriend, Reacts(ss, hs))
  {
    FriendView();
    RecordsFollowSessions(AsFriend, ApplyToFriend, ss, hs, sent);
  }

  /** A consumer that keeps all an update can carry holds the characters themselves. */
  lemma WholeRecordsFollowSessions(ss: Sessions, hs: seq<Happening>, sent: seq<Update>)
    requires PossibleRun(Overlay, Any, Gate(map[], Shown(Whole, ss)), Steps(ss, hs))
    requires Sends(Run(Overlay, Gate(map[], Shown(Whole, ss)), Steps(ss, hs)).buffer, sent, true)
    ensures Deliver(Overlay, Run(Overlay, Gate(map[], Shown(Whole, ss)), Steps(ss, hs)).store, sent) == Reacts(ss, hs)
  {
    WholeView();
    RecordsFollowSessions(Whole, Overlay, ss, hs, sent);
    assert Shown(Whole, Reacts(ss, hs)) == Reacts(ss, hs);
  }
}
