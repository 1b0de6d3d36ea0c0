/**
 * The four stored records. Timestamps are integer milliseconds since the epoch (the source
 * carries them as ISO-8601 strings, which for valid times are in one-to-one correspondence);
 * `date` is a calendar day written `YYYY-MM-DD`; optional fields are `Option`s.
 */
module Types {
  import opened Wrappers

  datatype Task = Task(
    id: string,
    name: string,
    projectId: Option<string>,
    clientId: Option<string>,
    userId: string,
    isRunning: bool)

  datatype TimeEntry = TimeEntry(
    id: string,
    taskId: string,
    userId: string,
    startTime: int,
    endTime: Option<int>,
    duration: int,
    date: string)

  /** `hourlyRate` is a JavaScript number; it is modelled as an exact rational. */
  datatype Project = Project(id: string, name: string, hourlyRate: real, userId: string)

  datatype Client = Client(id: string, name: string, userId: string)

  /** A JavaScript string value is truthy when it is present and not empty. */
  predicate Truthy(s: Option<string>) {
    s.Some? && s.value != ""
  }
}
