/**
 * The key-value store behind the routes: each key holds one JSON array. A read asks for an
 * array of a given record kind; a key that is unset, or holds another kind, reads as nothing.
 */
module Store {
  import opened Wrappers
  import opened Types

  datatype Value =
    | EntryList(entries: seq<TimeEntry>)
    | ProjectList(projects: seq<Project>)
    | TaskList(tasks: seq<Task>)
    | ClientList(clients: seq<Client>)

  class Redis {
    var data: map<string, Value>

    constructor (initial: map<string, Value>)
      ensures data == initial
    {
      data := initial;
    }

    /** `redis.get<TimeEntry[]>(key)`. */
    function GetEntries(key: string): (r: Option<seq<TimeEntry>>)
      reads this
      ensures r.Some? <==> key in data && data[key].EntryList?
      ensures r.Some? ==> data[key] == EntryList(r.value)
    {
      if key in data && data[key].EntryList? then Some(data[key].entries) else None
    }

    /** `redis.get<Project[]>(key)`. */
    function GetProjects(key: string): (r: Option<seq<Project>>)
      reads this
      ensures r.Some? <==> key in data && data[key].ProjectList?
      ensures r.Some? ==> data[key] == ProjectList(r.value)
    {
      if key in data && data[key].ProjectList? then Some(data[key].projects) else None
    }

    /** `redis.get<Task[]>(key)`. */
    function GetTasks(key: string): (r: Option<seq<Task>>)
      reads this
      ensures r.Some? <==> key in data && data[key].TaskList?
      ensures r.Some? ==> data[key] == TaskList(r.value)
    {
      if key in data && data[key].TaskList? then Some(data[key].tasks) else None
    }

    /** `redis.get<Client[]>(key)`. */
    function GetClients(key: string): (r: Option<seq<Client>>)
      reads this
      ensures r.Some? <==> key in data && data[key].ClientList?
      ensures r.Some? ==> data[key] == ClientList(r.value)
    {
      if key in data && data[key].ClientList? then Some(data[key].clients) else None
    }

    /** `redis.set(key, value)`: that key now holds the value, and no other key changed. */
    method Set(key: string, v: Value)
      modifies this
      ensures data == old(data)[key := v]
    {
      data := data[key := v];
    }
  }
}
