/** What one request does to one row, one membership and one group of the mother's tables, column by column. */
module TableSteps {
  import opened MotherTables

  // ----- Rows -----

  /** Is the row gone after this event: for good, by force, or because it never pushed? */
  predicate Drops(t: Tables, e: Event, id: int)
    requires id in t.servers
  {
    var s := t.servers[id];
    match e
    case RemoveServer(i, force, _) => i == id && (force || s.lastPush == 0)
    case Uninstalled(i, token) => i == id && token == s.token && s.requestedAt != 0
    case _ => false
  }

  /** Does this event open the row? Both names and tokens are taken only once. */
  ghost predicate Opens(t: Tables, e: Event, id: int) {
    e.AddServer? && e.id == id && forall k :: k in t.servers ==> t.servers[k].name != e.name && t.servers[k].token != e.token
  }

  /** Exactly which rows there are after an event, and what a new one says. */
  lemma RowsAfter(t: Tables, e: Event, id: int)
    ensures id in Next(t, e).servers <==> if id in t.servers then !Drops(t, e, id) else Opens(t, e, id)
    ensures id !in t.servers && Opens(t, e, id) ==>
              Next(t, e).servers[id] == Server(e.name, e.token, "", "", "", 0, "", "", 0, "")
  {
  }

  /** The columns of a row after an event that leaves it there. */
  lemma ColumnsAfter(t: Tables, e: Event, id: int)
    requires id in t.servers && !Drops(t, e, id)
    ensures id in Next(t, e).servers
    ensures var s, u := t.servers[id], Next(t, e).servers[id];
            match e
            case Ingest(i, token, hb, samples, now, accepted, _) =>
              if i == id && token == s.token && accepted <= samples.Keys then
                u == Server(s.name, s.token, if hb.os == "" then s.os else hb.os, if hb.arch == "" then s.arch else hb.arch,
                            hb.agentVersion, now, s.desired, hb.updateError, s.requestedAt, hb.uninstallError)
              else u == s
            case RemoveServer(i, _, now) =>
              u == Server(s.name, s.token, s.os, s.arch, s.agentVersion, s.lastPush, s.desired, s.updateError,
                          if i == id && s.requestedAt == 0 then now else s.requestedAt, s.uninstallError)
            case SetVersion(i, version) =>
              if i == id then
                u == Server(s.name, s.token, s.os, s.arch, s.agentVersion, s.lastPush, version, "", s.requestedAt, s.uninstallError)
              else u == s
            case _ => u == s
  {
  }

  ghost predicate UniqueNames(servers: map<int, Server>) {
    forall a, b :: a in servers && b in servers && servers[a].name == servers[b].name ==> a == b
  }

  ghost predicate UniqueGroups(groups: map<int, string>) {
    forall a, b :: a in groups && b in groups && groups[a] == groups[b] ==> a == b
  }

  lemma {:induction false} NamesStayUnique(events: seq<Event>)
    ensures UniqueNames(Run(EMPTY, events).servers) && UniqueGroups(Run(EMPTY, events).groups)
  {
    if events != [] {
      var init := events[..|events| - 1];
      NamesStayUnique(init);
      StepKeepsNames(Run(EMPTY, init), events[|events| - 1]);
      StepKeepsGroups(Run(EMPTY, init), events[|events| - 1]);
    }
  }

  lemma StepKeepsNames(t: Tables, e: Event)
    requires UniqueNames(t.servers)
    ensures UniqueNames(Next(t, e).servers)
  {
    forall a, b | a in Next(t, e).servers && b in Next(t, e).servers && Next(t, e).servers[a].name == Next(t, e).servers[b].name
      ensures a == b
    {
      NameAfter(t, e, a);
      NameAfter(t, e, b);
    }
  }

  lemma NameAfter(t: Tables, e: Event, id: int)
    requires id in Next(t, e).servers
    ensures if id in t.servers then Next(t, e).servers[id].name == t.servers[id].name
            else Opens(t, e, id) && Next(t, e).servers[id].name == e.name
  {
    RowsAfter(t, e, id);
    if id in t.servers {
      ColumnsAfter(t, e, id);
    }
  }

  lemma StepKeepsGroups(t: Tables, e: Event)
    requires UniqueGroups(t.groups)
    ensures UniqueGroups(Next(t, e).groups)
  {
  }

  // ----- Groups -----

  /** Exactly which groups there are after an event, and their names. */
  lemma GroupsAfter(t: Tables, e: Event, group: int)
    ensures var gone := e.RemoveGroup? && e.group == group;
            var made := e.CreateGroup? && e.group == group && forall g :: g in t.groups ==> t.groups[g] != e.name;
            && (group in Next(t, e).groups <==> (group in t.groups && !gone) || made)
            && (group in t.groups && !gone ==> Next(t, e).groups[group] == t.groups[group])
            && (group !in t.groups && made ==> Next(t, e).groups[group] == e.name)
  {
  }

  /** Exactly which memberships there are after an event: another group's and another server's are untouched. */
  lemma MembersAfter(t: Tables, e: Event, group: int, id: int)
    ensures (group, id) in Next(t, e).members <==>
            if e.SetMembers? && e.group == group && group in t.groups then id in e.ids
            else
              && (group, id) in t.members
              && !(e.RemoveGroup? && e.group == group && group in t.groups)
              && !(id in t.servers && Drops(t, e, id))
  {
  }
}
