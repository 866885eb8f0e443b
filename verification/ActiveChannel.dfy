/**
 The in-memory channel object and its write-through table (apps/chatserver/service/channel-manager.go), proved
 against the functions of ChatChannel. The outcome of every write is an argument.
 */
module ActiveChannel {
  import opened ChatChannel

  /** One more row read: the owner so far stays, unless this row has the flag. */
  lemma LoadOne(table: Members, left: set<Guid>, g: Guid, owner: Guid)
    requires g in left && left <= table.Keys && Loads(table - left, owner)
    ensures (table - left)[g := table[g]] == table - (left - {g})
    ensures Loads(table - (left - {g}), if Owner in table[g].flags then g else owner)
  {
    var more := table - (left - {g});
    assert (table - left)[g := table[g]] == more;
    assert forall h :: h in more <==> h in table - left || h == g;
  }

  lemma RemoveAfter(m: Members, done: set<Guid>, g: Guid)
    ensures (m - done) - {g} == m - (done + {g})
  {
  }

  lemma RemoveRowAfter(m: Members, done: set<Guid>, stuck: set<Guid>, g: Guid)
    ensures m - ((done + {g}) - stuck) == if g in stuck then m - (done - stuck) else (m - (done - stuck)) - {g}
  {
    if g in stuck {
      assert (done + {g}) - stuck == done - stuck;
    } else {
      assert (done + {g}) - stuck == (done - stuck) + {g};
      RemoveAfter(m, done - stuck, g);
    }
  }

  lemma TakeOne(all: set<Guid>, left: set<Guid>, g: Guid)
    requires g in left && left <= all
    ensures all - (left - {g}) == (all - left) + {g}
  {
  }

  lemma OnlineIsTheRest(m: Members, online: set<Guid>)
    ensures Online(m, online) == m - (m.Keys - online)
  {
  }

  class ActiveChannel {
    var members: Members
    var ownerGUID: Guid
    const ownership: bool
    var password: string
    const rights: set<Guid>
    var bannedUntil: map<Guid, int>
    // the channel's part of the member table and of the ban table
    var rows: Members
    var banRows: map<Guid, int>

    function State(): Channel
      reads this
    {
      Channel(members, ownerGUID, ownership, password, rights, bannedUntil, rows)
    }

    /** GetOrCreateChannel: the rows are read in some order, and the last one with the owner flag names the owner. */
    constructor (table: Members, owned: bool, word: string, moderators: set<Guid>, bans: map<Guid, int>, now: int)
      ensures State() == Channel(table, ownerGUID, owned, word, moderators, bannedUntil, table)
      ensures Loads(table, ownerGUID)
      ensures bannedUntil == (map g | g in bans && bans[g] > now :: bans[g]) && banRows == bans
    {
      ownership, password, rights, rows, banRows := owned, word, moderators, table, bans;
      bannedUntil := map g | g in bans && bans[g] > now :: bans[g];
      members, ownerGUID := map[], 0;
      new;
      LoadMembers();
    }

    method LoadMembers()
      requires members == map[] && ownerGUID == 0
      modifies `members, `ownerGUID
      ensures members == rows && Loads(rows, ownerGUID)
    {
      var left := rows.Keys;
      while left != {}
        invariant left <= rows.Keys && members == rows - left && Loads(members, ownerGUID)
        decreases |left|
      {
        var g :| g in left;
        LoadOne(rows, left, g, ownerGUID);
        left := left - {g};
        members := members[g := rows[g]];
        if Owner in rows[g].flags { ownerGUID := g; }
      }
      assert rows - {} == rows;
    }

    method JoinChannel(g: Guid, name: string, word: string, now: int, saved: bool) returns (reply: Reply)
      modifies this
      ensures (State(), reply) == Join(old(State()), g, name, word, now, saved)
    {
      if g in bannedUntil && bannedUntil[g] > now { return Banned; }
      if password != "" && password != word { return WrongPassword; }
      if g in members { return Done; }
      var flags: set<Flag> := {};
      if |members| == 0 && ownership {
        flags := {Owner};
        ownerGUID := g;
      }
      if g in rights { flags := flags + {Moderator}; }
      assert flags == FirstFlags(|members| == 0 && ownership, g in rights);
      SaveMember(g, Member(name, flags), saved);
      reply := if saved then Done else Failed;
    }

    /** The member is added first and taken out again when the write fails. */
    method SaveMember(g: Guid, m: Member, saved: bool)
      requires g !in members
      modifies this`members, this`rows
      ensures members == if saved then old(members)[g := m] else old(members)
      ensures rows == if saved then old(rows)[g := m] else old(rows)
    {
      members := members[g := m];
      if saved {
        rows := rows[g := m];
      } else {
        members := members - {g};
      }
    }

    /** The two loops of every succession: a moderator other than skip, else anybody other than skip, else 0. */
    method FindHeir(skip: Guid) returns (heir: Guid)
      requires 0 !in members
      ensures Heir(members - {skip}, heir)
      ensures heir == 0 <==> members.Keys <= {skip}
      ensures heir != 0 ==> heir in members && heir != skip
      ensures (exists m :: m in members && m != skip && Moderator in members[m].flags) ==> Moderator in members[heir].flags
    {
      var left := members.Keys;
      while left != {}
        invariant left <= members.Keys
        invariant forall g :: g in members && g !in left && g != skip ==> Moderator !in members[g].flags
        decreases |left|
      {
        var g :| g in left;
        left := left - {g};
        if g != skip && Moderator in members[g].flags {
          assert g in members - {skip};
          return g;
        }
      }
      left := members.Keys;
      while left != {}
        invariant left <= members.Keys
        invariant forall g :: g in members && g !in left ==> g == skip
        decreases |left|
      {
        var g :| g in left;
        left := left - {g};
        if g != skip {
          assert g in members - {skip};
          return g;
        }
      }
      assert members - {skip} == map[];
      return 0;
    }

    method LeaveChannel(g: Guid, removed: bool, saved: bool) returns (heir: Guid, reply: Reply)
      requires 0 !in members
      modifies `members, `ownerGUID, `rows
      ensures Possible(old(State()), LeaveOp(g, removed, heir, saved))
      ensures (State(), reply) == Leave(old(State()), g, removed, heir, saved)
      ensures heir != 0 ==> ownerGUID == heir && Heir(old(members) - {g}, heir)
    {
      heir := 0;
      if g !in members { return 0, NotMember; }
      var member := members[g];
      members := members - {g};
      if !removed {
        members := members[g := member];
        assert members == old(members);
        return 0, Failed;
      }
      rows := rows - {g};
      if Owner in member.flags && |members| > 0 && ownership {
        heir := FindHeir(g);
        assert members - {g} == members;
        if heir != 0 { CrownHeir(heir, saved); }
      }
      reply := Done;
    }

    /** The end of a succession: the flag is set in memory whether or not the write reaches the table. */
    method CrownHeir(heir: Guid, saved: bool)
      requires heir in members
      modifies this`members, this`ownerGUID, this`rows
      ensures members == Crown(old(members), heir) && ownerGUID == heir
      ensures rows == if saved then UpdateFlags(old(rows), heir, members[heir].flags) else old(rows)
    {
      members := Crown(members, heir);
      ownerGUID := heir;
      if saved { rows := UpdateFlags(rows, heir, members[heir].flags); }
    }

    /** SetModerator and SetMute: set, write, revert. */
    method SetMemberFlag(g: Guid, flag: Flag, on: bool, saved: bool) returns (reply: Reply)
      modifies this
      ensures (State(), reply) == SetFlag(old(State()), g, flag, on, saved)
    {
      if g !in members { return NotMember; }
      var was := members[g];
      var flags := if on then was.flags + {flag} else was.flags - {flag};
      members := members[g := was.(flags := flags)];
      if !saved {
        members := members[g := was];
        assert members == old(members);
        return Failed;
      }
      rows := UpdateFlags(rows, g, flags);
      return Done;
    }

    method SetOwner(g: Guid, deposed: bool, crowned: bool) returns (reply: Reply)
      modifies this
      ensures (State(), reply) == ChatChannel.SetOwner(old(State()), g, deposed, crowned)
    {
      if g !in members { return NotFound; }
      var oldOwner := ownerGUID;
      var hasOld := oldOwner != 0 && oldOwner in members;
      var oldFlags: set<Flag> := {};
      if hasOld {
        oldFlags := members[oldOwner].flags;
        members := Depose(members, oldOwner);
        if !deposed {
          members := members[oldOwner := members[oldOwner].(flags := oldFlags)];
          assert members == old(members);
          return Failed;
        }
        rows := UpdateFlags(rows, oldOwner, members[oldOwner].flags);
      }
      var newFlags := members[g].flags;
      members := Crown(members, g);
      if !crowned {
        members := members[g := members[g].(flags := newFlags)];
        if hasOld { members := members[oldOwner := members[oldOwner].(flags := oldFlags)]; }
        assert members == old(members);
        return Failed;
      }
      rows := UpdateFlags(rows, g, members[g].flags);
      ownerGUID := g;
      return Done;
    }

    /** TransferOwnershipOnLogout for this channel. */
    method TransferOnLogout(g: Guid, deposed: bool, crowned: bool) returns (heir: Guid)
      requires 0 !in members
      modifies this
      ensures Possible(old(State()), LogoutOp(g, heir, deposed, crowned))
      ensures State() == Logout(old(State()), g, heir, deposed, crowned)
      ensures heir != 0 ==> ownerGUID == heir && Heir(old(members) - {g}, heir)
    {
      if g !in members || Owner !in members[g].flags || !ownership { return 0; }
      heir := FindHeir(g);
      if heir != 0 {
        members := Depose(members, g);
        if deposed { rows := UpdateFlags(rows, g, members[g].flags); }
        CrownHeir(heir, crowned);
      }
    }

    method RemoveOffline(online: set<Guid>, stuck: set<Guid>)
      modifies this`members, this`rows
      ensures members == Online(old(members), online)
      ensures rows == old(rows) - (old(members).Keys - online - stuck)
    {
      var offline := members.Keys - online;
      ghost var done := {};
      var left := offline;
      while left != {}
        invariant left <= offline && done == offline - left
        invariant members == old(members) - done
        invariant rows == old(rows) - (done - stuck)
        decreases |left|
      {
        var g :| g in left;
        RemoveAfter(old(members), done, g);
        members := members - {g};
        RemoveRowAfter(old(rows), done, stuck, g);
        if g !in stuck { rows := rows - {g}; }
        TakeOne(offline, left, g);
        left, done := left - {g}, done + {g};
      }
      OnlineIsTheRest(old(members), online);
    }

    method PruneOfflineMembers(online: set<Guid>, stuck: set<Guid>, saved: bool) returns (heir: Guid)
      requires 0 !in members
      modifies this
      ensures Possible(old(State()), PruneOp(online, stuck, heir, saved))
      ensures State() == Prune(old(State()), online, stuck, heir, saved)
      ensures heir != 0 ==> ownerGUID == heir && Heir(Online(old(members), online), heir)
    {
      heir := 0;
      RemoveOffline(online, stuck);
      if ownerGUID != 0 && ownerGUID !in online {
        ownerGUID := 0;
        if |members| > 0 && ownership {
          heir := FindHeir(0);
          assert members - {0} == members;
          if heir != 0 { CrownHeir(heir, saved); }
        }
      }
    }

    /** The GUID of a member with that name, or 0 if there is none. */
    method FindMemberByName(name: string) returns (g: Guid)
      requires 0 !in members
      ensures g != 0 ==> g in members && members[g].name == name
      ensures g == 0 <==> forall h :: h in members ==> members[h].name != name
    {
      var left := members.Keys;
      while left != {}
        invariant left <= members.Keys
        invariant forall h :: h in members && h !in left ==> members[h].name != name
        decreases |left|
      {
        g :| g in left;
        left := left - {g};
        if members[g].name == name { return g; }
      }
      return 0;
    }

    /**
     BanPlayerByName: only a moderator or the owner can ban. The target is put out if the removal can be written, and is
     banned in memory whatever the table says; written is the outcome of the write to the ban table.
     */
    method BanPlayerByName(banner: Guid, name: string, until: int, removed: bool, saved: bool, written: bool)
        returns (target: Guid, reply: Reply, ghost g: Guid)
      requires 0 !in members
      modifies this
      ensures var bans :=
                && banner in old(members)
                && (Moderator in old(members)[banner].flags || Owner in old(members)[banner].flags)
                && exists m :: m in old(members) && old(members)[m].name == name;
              && (reply == Done <==> bans && written) && (reply == Failed <==> bans && !written)
      ensures reply != Done && reply != Failed ==> State() == old(State()) && banRows == old(banRows)
      ensures reply == Done || reply == Failed ==>
                && g in old(members) && old(members)[g].name == name && (g in members <==> !removed)
                && banRows == (if written then old(banRows)[g := until] else old(banRows))
                && exists heir :: Possible(old(State()), LeaveOp(g, removed, heir, saved))
                     && State() == Ban(Leave(old(State()), g, removed, heir, saved).0, g, until)
      ensures target == if reply == Done then g else 0
    {
      if banner !in members { return 0, NotMember, 0; }
      if Moderator !in members[banner].flags && Owner !in members[banner].flags { return 0, NotModerator, 0; }
      target := FindMemberByName(name);
      if target == 0 { return 0, NotFound, 0; }
      g := target;
      var heir, _ := LeaveChannel(target, removed, saved);
      bannedUntil := bannedUntil[target := until];
      if !written { return 0, Failed, g; }
      banRows := banRows[target := until];
      reply := Done;
    }
  }
}
