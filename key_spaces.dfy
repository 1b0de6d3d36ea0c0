/**
 * The four kinds of record share one store. Their keys start with different prefixes, so
 * no key of one kind is ever a key of another, whatever the emails.
 */
module KeySpaces {
  import opened Store
  import opened RedisUtils
  import opened ProjectsRoute
  import opened TasksRoute
  import opened ClientsRoute

  lemma NamespacesDisjoint(a: string, b: string)
    ensures TimeEntryKey(a) != ProjectKey(b) && TimeEntryKey(a) != TaskKey(b) && TimeEntryKey(a) != ClientKey(b)
    ensures ProjectKey(a) != TaskKey(b) && ProjectKey(a) != ClientKey(b)
    ensures TaskKey(a) != ClientKey(b)
  {
    assert TimeEntryKey(a)[..2] == "ti" && TaskKey(b)[..2] == "ta";
    assert ProjectKey(a)[0] == 'p' && ClientKey(b)[0] == 'c' && TaskKey(b)[0] == 't' && TimeEntryKey(a)[0] == 't';
    assert ProjectKey(b)[0] == 'p' && ClientKey(a)[0] == 'c' && TaskKey(a)[0] == 't';
  }

  /**
   * Storing one user's projects leaves every user's entries, tasks and clients as they were;
   * likewise for the other kinds.
   */
  lemma WritesStayInTheirSpace(m: map<string, Value>, a: string, b: string, v: Value)
    ensures var m' := m[ProjectKey(a) := v];
            (TimeEntryKey(b) in m <==> TimeEntryKey(b) in m') && (TimeEntryKey(b) in m ==> m'[TimeEntryKey(b)] == m[TimeEntryKey(b)])
            && (TaskKey(b) in m <==> TaskKey(b) in m') && (TaskKey(b) in m ==> m'[TaskKey(b)] == m[TaskKey(b)])
            && (ClientKey(b) in m <==> ClientKey(b) in m') && (ClientKey(b) in m ==> m'[ClientKey(b)] == m[ClientKey(b)])
    ensures var m' := m[TimeEntryKey(a) := v];
            (ProjectKey(b) in m <==> ProjectKey(b) in m') && (ProjectKey(b) in m ==> m'[ProjectKey(b)] == m[ProjectKey(b)])
            && (TaskKey(b) in m <==> TaskKey(b) in m') && (TaskKey(b) in m ==> m'[TaskKey(b)] == m[TaskKey(b)])
            && (ClientKey(b) in m <==> ClientKey(b) in m') && (ClientKey(b) in m ==> m'[ClientKey(b)] == m[ClientKey(b)])
    ensures var m' := m[TaskKey(a) := v];
            (TimeEntryKey(b) in m <==> TimeEntryKey(b) in m') && (TimeEntryKey(b) in m ==> m'[TimeEntryKey(b)] == m[TimeEntryKey(b)])
            && (ProjectKey(b) in m <==> ProjectKey(b) in m') && (ProjectKey(b) in m ==> m'[ProjectKey(b)] == m[ProjectKey(b)])
            && (ClientKey(b) in m <==> ClientKey(b) in m') && (ClientKey(b) in m ==> m'[ClientKey(b)] == m[ClientKey(b)])
    ensures var m' := m[ClientKey(a) := v];
            (TimeEntryKey(b) in m <==> TimeEntryKey(b) in m') && (TimeEntryKey(b) in m ==> m'[TimeEntryKey(b)] == m[TimeEntryKey(b)])
            && (ProjectKey(b) in m <==> ProjectKey(b) in m') && (ProjectKey(b) in m ==> m'[ProjectKey(b)] == m[ProjectKey(b)])
            && (TaskKey(b) in m <==> TaskKey(b) in m') && (TaskKey(b) in m ==> m'[TaskKey(b)] == m[TaskKey(b)])
  {
    NamespacesDisjoint(a, b);
    NamespacesDisjoint(b, a);
  }
}
