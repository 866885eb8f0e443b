/** Who is let into a chat channel, who leaves it, and with which flags: per operation and over runs. */
module ChatChannelMembers {
  import opened ChatChannel
  import opened ChatChannelRuns

  /** Each reply to a join, in the order of the checks, and what a join changes. */
  lemma JoinReplies(c: Channel, g: Guid, name: string, password: string, now: int, saved: bool)
    ensures var (c', reply) := Join(c, g, name, password, now, saved);
            var banned := g in c.bans && now < c.bans[g];
            var wrong := c.password != "" && password != c.password;
            && (reply == Banned <==> banned)
            && (reply == WrongPassword <==> !banned && wrong)
            && (reply == Failed <==> !banned && !wrong && g !in c.members && !saved)
            && (reply == Done <==> !banned && !wrong && (g in c.members || saved))
            && (reply != Done || g in c.members ==> c'.members == c.members && c'.rows == c.rows)
  {
  }

  /** A new member is owner exactly as the first one of a channel with ownership, and moderator exactly by its rights. */
  lemma NewMember(c: Channel, g: Guid, name: string, password: string, now: int, saved: bool)
    requires g !in c.members && Join(c, g, name, password, now, saved).1 == Done
    ensures var c' := Join(c, g, name, password, now, saved).0;
            && g in c'.members && c'.members[g].name == name
            && (Owner in c'.members[g].flags <==> c.members == map[] && c.ownership)
            && (Moderator in c'.members[g].flags <==> g in c.rights)
            && c'.members[g].flags <= {Owner, Moderator}
            && c'.members == c.members[g := c'.members[g]] && c'.rows == c.rows[g := c'.members[g]]
            && c'.owner == if c.members == map[] && c.ownership then g else c.owner
  {
    assert |c.members| == 0 <==> c.members == map[];
  }

  predicate Admits(c: Channel, op: Op, g: Guid) {
    && op.JoinOp? && op.who == g && op.saved
    && !(g in c.bans && op.now < c.bans[g]) && (c.password == "" || op.password == c.password)
  }

  lemma LeaveMembers(c: Channel, g: Guid, removed: bool, heir: Guid, saved: bool, h: Guid, flag: Flag)
    requires (heir in c.members - {g} || heir == 0) && flag != Owner
    ensures var ms := Leave(c, g, removed, heir, saved).0.members;
            && (h in ms <==> h in c.members && !(h == g && removed))
            && (h in ms ==> ms[h].name == c.members[h].name && (flag in ms[h].flags <==> flag in c.members[h].flags))
  {
  }

  lemma PruneMembers(c: Channel, online: set<Guid>, stuck: set<Guid>, heir: Guid, saved: bool, h: Guid, flag: Flag)
    requires (heir in Online(c.members, online) || heir == 0) && flag != Owner
    ensures var ms := Prune(c, online, stuck, heir, saved).members;
            && (h in ms <==> h in c.members && h in online)
            && (h in ms ==> ms[h].name == c.members[h].name && (flag in ms[h].flags <==> flag in c.members[h].flags))
  {
  }

  lemma TransferMembers(c: Channel, g: Guid, heir: Guid, first: bool, second: bool, h: Guid, flag: Flag)
    requires (heir in c.members - {g} || heir == 0) && flag != Owner
    ensures var ms, ns := SetOwner(c, g, first, second).0.members, Logout(c, g, heir, first, second).members;
            && (h in ms <==> h in c.members) && (h in ns <==> h in c.members)
            && (h in ms ==> ms[h].name == c.members[h].name && (flag in ms[h].flags <==> flag in c.members[h].flags))
            && (h in ns ==> ns[h].name == c.members[h].name && (flag in ns[h].flags <==> flag in c.members[h].flags))
  {
  }

  lemma FlagMembers(c: Channel, g: Guid, set_: Flag, on: bool, saved: bool, h: Guid, flag: Flag)
    ensures var ms := SetFlag(c, g, set_, on, saved).0.members;
            && (h in ms <==> h in c.members)
            && (h in ms ==> ms[h].name == c.members[h].name)
            && (h in ms ==> (flag in ms[h].flags <==> if h == g && flag == set_ && saved then on else flag in c.members[h].flags))
  {
  }

  lemma JoinMembers(c: Channel, g: Guid, name: string, password: string, now: int, saved: bool, h: Guid)
    ensures var ms := Join(c, g, name, password, now, saved).0.members;
            && (h in ms <==> h in c.members || Admits(c, JoinOp(g, name, password, now, saved), h))
            && (h in c.members ==> ms[h] == c.members[h])
  {
  }

  /** What an operation does to the members and to their flags other than the owner's. */
  lemma MembersAfter(c: Channel, op: Op, g: Guid, flag: Flag)
    requires Possible(c, op) && flag != Owner
    ensures g in Apply(c, op).members <==>
            if g in c.members then !(op.LeaveOp? && op.who == g && op.removed) && !(op.PruneOp? && g !in op.online)
            else Admits(c, op, g)
    ensures g in c.members && g in Apply(c, op).members ==>
            && Apply(c, op).members[g].name == c.members[g].name
            && (flag in Apply(c, op).members[g].flags <==>
                if op.FlagOp? && op.who == g && op.flag == flag && op.saved then op.on else flag in c.members[g].flags)
  {
    match op
    case JoinOp(who, name, password, now, saved) => JoinMembers(c, who, name, password, now, saved, g);
    case LeaveOp(who, removed, heir, saved) => LeaveMembers(c, who, removed, heir, saved, g, flag);
    case FlagOp(who, which, on, saved) => FlagMembers(c, who, which, on, saved, g, flag);
    case OwnerOp(who, deposed, crowned) => TransferMembers(c, who, 0, deposed, crowned, g, flag);
    case LogoutOp(who, heir, deposed, crowned) => TransferMembers(c, who, heir, deposed, crowned, g, flag);
    case PruneOp(online, stuck, heir, saved) => PruneMembers(c, online, stuck, heir, saved, g, flag);
    case BanOp(_, _) =>
  }

  ghost predicate SameSettings(c: Channel, c': Channel) {
    c'.bans == c.bans && c'.password == c.password && c'.rights == c.rights
  }

  lemma JoinKeepsSettings(c: Channel, g: Guid, name: string, password: string, now: int, saved: bool)
    ensures SameSettings(c, Join(c, g, name, password, now, saved).0)
  {
  }

  lemma LeaveKeepsSettings(c: Channel, g: Guid, removed: bool, heir: Guid, saved: bool)
    requires heir in c.members - {g} || heir == 0
    ensures SameSettings(c, Leave(c, g, removed, heir, saved).0)
  {
  }

  lemma FlagsKeepSettings(c: Channel, op: Op)
    requires Possible(c, op) && (op.FlagOp? || op.OwnerOp?)
    ensures SameSettings(c, Apply(c, op))
  {
  }

  lemma LogoutPruneKeepSettings(c: Channel, op: Op)
    requires Possible(c, op) && (op.LogoutOp? || op.PruneOp?)
    ensures SameSettings(c, Apply(c, op))
  {
  }

  /** Bans change only by a ban. */
  lemma BansChangeByBan(c: Channel, op: Op)
    requires Possible(c, op)
    ensures op.BanOp? ==> Apply(c, op) == c.(bans := c.bans[op.who := op.until])
    ensures !op.BanOp? ==> SameSettings(c, Apply(c, op))
  {
    if op.JoinOp? {
      JoinKeepsSettings(c, op.who, op.name, op.password, op.now, op.saved);
    } else if op.LeaveOp? {
      LeaveKeepsSettings(c, op.who, op.removed, op.heir, op.saved);
    } else if op.FlagOp? || op.OwnerOp? {
      FlagsKeepSettings(c, op);
    } else if op.LogoutOp? || op.PruneOp? {
      LogoutPruneKeepSettings(c, op);
    }
  }

  /** Replies of the other operations. */
  lemma OtherReplies(c: Channel, g: Guid, flag: Flag, on: bool, first: bool, second: bool)
    ensures Leave(c, g, first, 0, second).1 == if g !in c.members then NotMember else if first then Done else Failed
    ensures SetFlag(c, g, flag, on, first).1 == if g !in c.members then NotMember else if first then Done else Failed
    ensures SetOwner(c, g, first, second).1 ==
            if g !in c.members then NotFound
            else if (c.owner != 0 && c.owner in c.members && !first) || !second then Failed else Done
  {
  }

  // ----- a ban holds -----

  /** No ban of g in the run ends before t, and every join of g comes before t. */
  ghost predicate Within(ops: seq<Op>, g: Guid, t: int) {
    && (forall op :: op in ops && op.BanOp? && op.who == g ==> op.until >= t)
    && (forall op :: op in ops && op.JoinOp? && op.who == g ==> op.now < t)
  }

  /** Once out and banned until t, a player stays out until then, whatever anybody does. */
  lemma {:induction false} BannedStaysOut(c: Channel, ops: seq<Op>, g: Guid, t: int)
    requires PossibleRun(c, ops) && g !in c.members && g in c.bans && c.bans[g] >= t && Within(ops, g, t)
    ensures g !in Run(c, ops).members
    decreases |ops|
  {
    if ops != [] {
      assert ops[0] in ops && forall op :: op in ops[1..] ==> op in ops;
      MembersAfter(c, ops[0], g, Moderator);
      BansChangeByBan(c, ops[0]);
      BannedStaysOut(Apply(c, ops[0]), ops[1..], g, t);
    }
  }

  ghost predicate AdmittedIn(c: Channel, ops: seq<Op>, g: Guid)
    requires PossibleRun(c, ops)
    decreases |ops|
  {
    ops != [] && (Admits(c, ops[0], g) || AdmittedIn(Apply(c, ops[0]), ops[1..], g))
  }

  /** Over every run, whoever was out and is in now was admitted on the way. */
  lemma {:induction false} NobodySlipsIn(c: Channel, ops: seq<Op>, g: Guid)
    requires PossibleRun(c, ops) && g !in c.members && g in Run(c, ops).members
    ensures AdmittedIn(c, ops, g)
    decreases |ops|
  {
    MembersAfter(c, ops[0], g, Moderator);
    if !Admits(c, ops[0], g) {
      NobodySlipsIn(Apply(c, ops[0]), ops[1..], g);
    }
  }
}
