/**
 Whole runs of a chat channel: who owns it, who inherits it, and when the member table still mirrors memory.
 */
module ChatChannelRuns {
  import opened ChatChannel

  // ----- ownership over runs -----

  /** Each operation is possible in the state the earlier ones lead to. */
  ghost predicate PossibleRun(c: Channel, ops: seq<Op>)
    decreases |ops|
  {
    ops == [] || (Possible(c, ops[0]) && PossibleRun(Apply(c, ops[0]), ops[1..]))
  }

  ghost function Run(c: Channel, ops: seq<Op>): Channel
    requires PossibleRun(c, ops)
    decreases |ops|
  {
    if ops == [] then c else Run(Apply(c, ops[0]), ops[1..])
  }

  /** Every reachable state of a channel with ownership and members has exactly one owner, whatever fails. */
  lemma {:induction false} OwnershipIsExclusive(c: Channel, ops: seq<Op>)
    requires Inv(c) && PossibleRun(c, ops)
    ensures Inv(Run(c, ops))
    ensures c.ownership && Run(c, ops).members != map[] ==> OneOwner(Run(c, ops).members, Run(c, ops).owner)
    decreases |ops|
  {
    KeepsOwnership(c, ops);
    if ops != [] {
      StepKeepsInv(c, ops[0]);
      OwnershipIsExclusive(Apply(c, ops[0]), ops[1..]);
    }
  }

  lemma {:induction false} KeepsOwnership(c: Channel, ops: seq<Op>)
    requires PossibleRun(c, ops)
    ensures Run(c, ops).ownership == c.ownership
    decreases |ops|
  {
    if ops != [] {
      StepKeepsOwnership(c, ops[0]);
      KeepsOwnership(Apply(c, ops[0]), ops[1..]);
    }
  }

  lemma StepKeepsOwnership(c: Channel, op: Op)
    requires Possible(c, op)
    ensures Apply(c, op).ownership == c.ownership
  {
  }

  // ----- the table mirrors memory -----

  predicate Mirrors(c: Channel) {
    c.rows == c.members
  }

  /** Whether the operation leaves a write behind that memory has and the table has not (or the other way round). */
  ghost predicate Diverges(c: Channel, op: Op)
    requires Possible(c, op)
  {
    match op
    case JoinOp(_, _, _, _, _) => false
    case FlagOp(_, _, _, _) => false
    case BanOp(_, _) => false
    // the heir's new flag was not saved
    case LeaveOp(g, removed, heir, saved) =>
      removed && heir != 0 && !saved
    // the old owner lost the flag in the table, and got it back in memory only
    case OwnerOp(g, deposed, crowned) =>
      g in c.members && c.owner != 0 && c.owner in c.members && deposed && !crowned && Owner in c.members[c.owner].flags
    case LogoutOp(g, heir, deposed, crowned) =>
      heir != 0 && !(deposed && crowned)
    case PruneOp(online, stuck, heir, saved) =>
      || !(c.members.Keys - online !! stuck)
      || (heir != 0 && !saved)
  }

  /**
   The table follows memory exactly when no such write is lost. Inv says that only the owner has the owner flag, which
   is what makes a lost crowning visible.
   */
  lemma WriteThrough(c: Channel, op: Op)
    requires Inv(c) && Possible(c, op) && Mirrors(c)
    ensures Mirrors(Apply(c, op)) <==> !Diverges(c, op)
  {
    match op
    case JoinOp(_, _, _, _, _) =>
    case LeaveOp(_, _, _, _) => LeaveWritesThrough(c, op);
    case FlagOp(_, _, _, _) =>
    case OwnerOp(_, _, _) => SetOwnerWritesThrough(c, op);
    case LogoutOp(_, _, _, _) => LogoutWritesThrough(c, op);
    case PruneOp(_, _, _, _) => PruneWritesThrough(c, op);
    case BanOp(_, _) =>
  }

  lemma LeaveWritesThrough(c: Channel, op: Op)
    requires Inv(c) && op.LeaveOp? && Possible(c, op) && Mirrors(c)
    ensures Mirrors(Apply(c, op)) <==> !Diverges(c, op)
  {
    var rest := c.members - {op.who};
    assert |rest| > 0 <==> rest != map[];
    if op.who in c.members && op.removed && Owner in c.members[op.who].flags && op.heir != 0 {
      assert op.heir != c.owner;
      assert Crown(rest, op.heir)[op.heir] != rest[op.heir];
    }
  }

  lemma SetOwnerWritesThrough(c: Channel, op: Op)
    requires op.OwnerOp? && Possible(c, op) && Mirrors(c)
    ensures Mirrors(Apply(c, op)) <==> !Diverges(c, op)
  {
    if op.who in c.members && c.owner != 0 && c.owner in c.members && op.deposed {
      var ms := Depose(c.members, c.owner);
      assert UpdateFlags(c.rows, c.owner, ms[c.owner].flags) == ms;
      if Owner in c.members[c.owner].flags {
        assert ms[c.owner] != c.members[c.owner];
      } else {
        assert ms[c.owner].flags == c.members[c.owner].flags;
        assert ms == c.members;
      }
    }
  }

  lemma LogoutWritesThrough(c: Channel, op: Op)
    requires Inv(c) && op.LogoutOp? && Possible(c, op) && Mirrors(c)
    ensures Mirrors(Apply(c, op)) <==> !Diverges(c, op)
  {
    var g, heir := op.who, op.heir;
    if g in c.members && Owner in c.members[g].flags && heir != 0 {
      assert heir != g && heir in c.members;
      var ms := Depose(c.members, g);
      var ms' := Crown(ms, heir);
      var c' := Apply(c, op);
      assert c'.members == ms';
      assert Owner !in ms'[g].flags && Owner in ms'[heir].flags;
      if !op.deposed {
        assert c'.rows[g] == c.rows[g];
      } else if !op.crowned {
        assert c'.rows[heir] == c.rows[heir];
      }
    }
  }

  lemma StuckRowsDiverge(c: Channel, op: Op)
    requires op.PruneOp? && Possible(c, op) && Mirrors(c) && !(c.members.Keys - op.online !! op.stuck)
    ensures !Mirrors(Apply(c, op))
  {
    var g :| g in c.members.Keys - op.online && g in op.stuck;
    assert g in Apply(c, op).rows && g !in Apply(c, op).members;
  }

  lemma RemovedRowsMirror(c: Channel, online: set<Guid>, stuck: set<Guid>)
    requires Mirrors(c) && c.members.Keys - online !! stuck
    ensures c.rows - (c.members.Keys - online - stuck) == Online(c.members, online)
  {
  }

  lemma PruneCrownWritesThrough(c: Channel, op: Op)
    requires Inv(c) && op.PruneOp? && Possible(c, op) && Mirrors(c) && c.members.Keys - op.online !! op.stuck
    requires PruneVacates(c, op.online) && op.heir != 0
    ensures Mirrors(Apply(c, op)) <==> op.saved
  {
    var kept := Online(c.members, op.online);
    RemovedRowsMirror(c, op.online, op.stuck);
    assert kept != map[] && op.heir in kept && op.heir != c.owner;
    assert Owner !in kept[op.heir].flags;
    assert Crown(kept, op.heir)[op.heir] != kept[op.heir];
  }

  lemma PruneWritesThrough(c: Channel, op: Op)
    requires Inv(c) && op.PruneOp? && Possible(c, op) && Mirrors(c)
    ensures Mirrors(Apply(c, op)) <==> !Diverges(c, op)
  {
    var kept := Online(c.members, op.online);
    if !(c.members.Keys - op.online !! op.stuck) {
      StuckRowsDiverge(c, op);
    } else {
      RemovedRowsMirror(c, op.online, op.stuck);
      assert |kept| > 0 <==> kept != map[];
      if PruneVacates(c, op.online) && op.heir != 0 {
        PruneCrownWritesThrough(c, op);
      }
    }
  }

  ghost predicate NothingLost(c: Channel, ops: seq<Op>)
    requires PossibleRun(c, ops)
    decreases |ops|
  {
    ops == [] || (!Diverges(c, ops[0]) && NothingLost(Apply(c, ops[0]), ops[1..]))
  }

  /** A run without a lost write can be restarted from its table: the load restores members and owner. */
  lemma {:induction false} TableRestoresChannel(c: Channel, ops: seq<Op>, owner: Guid)
    requires Inv(c) && c.ownership && Mirrors(c) && PossibleRun(c, ops) && NothingLost(c, ops)
    requires Loads(Run(c, ops).rows, owner)
    ensures Mirrors(Run(c, ops))
    ensures Run(c, ops).members != map[] ==> owner == Run(c, ops).owner
    decreases |ops|
  {
    if ops == [] {
      if c.members != map[] {
        assert c.owner in c.rows && Owner in c.rows[c.owner].flags;
      }
    } else {
      StepKeepsInv(c, ops[0]);
      WriteThrough(c, ops[0]);
      TableRestoresChannel(Apply(c, ops[0]), ops[1..], owner);
    }
  }

  // ----- loading -----

  ghost predicate OneOwnerRow(rows: Members) {
    exists g :: g in rows && Owner in rows[g].flags && forall h :: h in rows && Owner in rows[h].flags ==> h == g
  }

  /** A freshly loaded channel with ownership is sound exactly when its table is empty or holds one owner row. */
  lemma LoadIsSound(c: Channel)
    requires c.ownership && Mirrors(c) && 0 !in c.rows && Loads(c.rows, c.owner)
    ensures Inv(c) <==> c.rows == map[] || OneOwnerRow(c.rows)
  {
    if c.rows != map[] && OneOwnerRow(c.rows) {
      var g :| g in c.rows && Owner in c.rows[g].flags && forall h :: h in c.rows && Owner in c.rows[h].flags ==> h == g;
      assert c.owner == g;
    }
  }

  /** What a failing SetOwner leaves in the table: nobody is owner, so a channel loaded from it has none. */
  lemma HalfWrittenTransferLosesTheOwner(c: Channel, g: Guid, owner: Guid)
    requires Inv(c) && c.ownership && Mirrors(c) && g in c.members
    requires Loads(SetOwner(c, g, true, false).0.rows, owner)
    ensures owner == 0
    ensures forall h :: h in SetOwner(c, g, true, false).0.rows
                        ==> Owner !in SetOwner(c, g, true, false).0.rows[h].flags
  {
    assert c.members != map[];
    assert OneOwner(c.members, c.owner);
  }
}
