/** The durable record of model calls (joker/cognition/artifacts.py): one row per call, one call per key. */
module CallRecords {
  import opened Options

  datatype Status = InProgress | Completed | Failed

  datatype Record = Record(
    requestId: nat,
    key: string,
    provider: string,
    model: string,
    status: Status,
    attempts: int,
    escalatedFrom: Option<string>,
    output: Option<string>,
    error: Option<string>)

  datatype Refusal = Conflict | NotFound | WrongState

  datatype Reply<T> = Ok(value: T) | Refused(refusal: Refusal)

  /** Rows by request id, with the unique index on the idempotency key. */
  datatype Table = Table(rows: map<nat, Record>, index: map<string, nat>)

  ghost predicate Valid(t: Table) {
    && (forall id :: id in t.rows ==>
          t.rows[id].requestId == id && t.rows[id].key in t.index && t.index[t.rows[id].key] == id)
    && (forall key :: key in t.index ==> t.index[key] in t.rows && t.rows[t.index[key]].key == key)
  }

  /** Everything that is ever done to the table. */
  datatype Operation =
    | Append(record: Record)
    | Complete(id: nat, provider: string, model: string, output: Option<string>)
    | Fail(id: nat, error: string)

  function OrElse(text: string, fallback: string): string {
    if text != "" then text else fallback
  }

  function Applied(t: Table, op: Operation): Table {
    match op
    case Append(r) =>
      if r.key in t.index || r.requestId in t.rows then t
      else Table(t.rows[r.requestId := r], t.index[r.key := r.requestId])
    case Complete(id, provider, model, output) =>
      if id !in t.rows || !t.rows[id].status.InProgress? then t
      else
        var r := t.rows[id];
        t.(rows := t.rows[id := r.(status := Completed,
                                   provider := OrElse(provider, r.provider),
                                   model := OrElse(model, r.model),
                                   output := if Truthy(output) then output else r.output)])
    case Fail(id, error) =>
      if id !in t.rows || t.rows[id].status.Completed? then t
      else t.(rows := t.rows[id := t.rows[id].(status := Failed, error := Some(error))])
  }

  class ModelCallTable {
    var table: Table

    constructor ()
      ensures table == Table(map[], map[]) && Valid(table)
    {
      table := Table(map[], map[]);
    }

    method GetByKey(key: string) returns (found: Option<Record>)
      requires Valid(table)
      ensures found.Some? <==> exists id :: id in table.rows && table.rows[id].key == key
      ensures found.Some? ==> found.value.requestId in table.rows && table.rows[found.value.requestId] == found.value
      ensures found.Some? ==> found.value.key == key
    {
      if key in table.index {
        return Some(table.rows[table.index[key]]);
      }
      return None;
    }

    /** A known key answers with the earlier call's id and writes nothing. */
    method AppendModelCall(r: Record) returns (reply: Reply<nat>)
      requires Valid(table)
      modifies this
      ensures table == Applied(old(table), Append(r)) && Valid(table)
      ensures reply.Ok? ==> reply.value in table.rows && table.rows[reply.value].key == r.key
      ensures reply.Ok? && r.key !in old(table).index ==> table.rows[reply.value] == r
      ensures reply.Refused? <==> r.key !in old(table).index && r.requestId in old(table).rows
    {
      AppliedIsLater(table, Append(r));
      if r.key in table.index {
        return Ok(table.index[r.key]);
      }
      if r.requestId in table.rows {
        return Refused(Conflict);
      }
      table := Table(table.rows[r.requestId := r], table.index[r.key := r.requestId]);
      return Ok(r.requestId);
    }

    /** Completing again is harmless; completing a failed call is refused. */
    method MarkComplete(id: nat, provider: string, model: string, output: Option<string>) returns (reply: Reply<Record>)
      requires Valid(table)
      modifies this
      ensures table == Applied(old(table), Complete(id, provider, model, output)) && Valid(table)
      ensures reply.Ok? ==> id in table.rows && reply.value == table.rows[id] && reply.value.status.Completed?
      ensures reply == Refused(NotFound) <==> id !in old(table).rows
      ensures reply == Refused(WrongState) <==> id in old(table).rows && old(table).rows[id].status.Failed?
      ensures reply.Refused? ==> reply.refusal != Conflict
    {
      AppliedIsLater(table, Complete(id, provider, model, output));
      if id !in table.rows {
        return Refused(NotFound);
      }
      var r := table.rows[id];
      if r.status.Completed? {
        return Ok(r);
      }
      if r.status.Failed? {
        return Refused(WrongState);
      }
      var updated := r.(status := Completed,
                        provider := OrElse(provider, r.provider),
                        model := OrElse(model, r.model),
                        output := if Truthy(output) then output else r.output);
      table := table.(rows := table.rows[id := updated]);
      return Ok(updated);
    }

    method MarkFailed(id: nat, error: string) returns (reply: Reply<Record>)
      requires Valid(table)
      modifies this
      ensures table == Applied(old(table), Fail(id, error)) && Valid(table)
      ensures reply.Ok? ==> id in table.rows && reply.value == table.rows[id] && reply.value.status.Failed?
      ensures reply == Refused(NotFound) <==> id !in old(table).rows
      ensures reply == Refused(WrongState) <==> id in old(table).rows && old(table).rows[id].status.Completed?
      ensures reply.Refused? ==> reply.refusal != Conflict
    {
      AppliedIsLater(table, Fail(id, error));
      if id !in table.rows {
        return Refused(NotFound);
      }
      if table.rows[id].status.Completed? {
        return Refused(WrongState);
      }
      var updated := table.rows[id].(status := Failed, error := Some(error));
      table := table.(rows := table.rows[id := updated]);
      return Ok(updated);
    }
  }

  /** What no later table may contradict. */
  ghost predicate Later(t: Table, u: Table) {
    && (forall key :: key in t.index ==> key in u.index && u.index[key] == t.index[key])
    && (forall id :: id in t.rows ==>
          && id in u.rows && u.rows[id].key == t.rows[id].key
          && (t.rows[id].status.Completed? ==> u.rows[id] == t.rows[id])
          && (t.rows[id].status.Failed? ==> u.rows[id].status.Failed?))
  }

  lemma AppliedIsLater(t: Table, op: Operation)
    requires Valid(t)
    ensures Valid(Applied(t, op)) && Later(t, Applied(t, op))
  {
  }

  /** The row apart from what completing and failing may change. */
  function Fixed(r: Record): Record {
    r.(status := InProgress, provider := "", model := "", output := None, error := None)
  }

  /**
   What the two marks do to a row, field by field. Completing an open call takes over a name or an
   output only where there is one, and leaves the error; failing leaves everything but status and error.
   */
  lemma MarksExactly(t: Table, id: nat, provider: string, model: string, output: Option<string>, error: string)
    requires id in t.rows && t.rows[id].status.InProgress?
    ensures var r, done := t.rows[id], Applied(t, Complete(id, provider, model, output)).rows[id];
      && done.status == Completed && Fixed(done) == Fixed(r) && done.error == r.error
      && done.provider == (if |provider| > 0 then provider else r.provider)
      && done.model == (if |model| > 0 then model else r.model)
      && done.output == (if output.Some? && |output.value| > 0 then output else r.output)
    ensures Applied(t, Fail(id, error)).rows[id] == t.rows[id].(status := Failed, error := Some(error))
    ensures Applied(t, Complete(id, provider, model, output)).rows - {id} == t.rows - {id}
    ensures Applied(t, Fail(id, error)).rows - {id} == t.rows - {id}
  {
  }

  function AppliedAll(t: Table, ops: seq<Operation>): Table {
    if ops == [] then t else Applied(AppliedAll(t, ops[..|ops| - 1]), ops[|ops| - 1])
  }

  /**
   The record's life, over every history of operations by any number of callers: a
   completed row never changes again, a failed one never completes, no row is lost
   and every key keeps its one row.
   */
  lemma {:induction false} RecordsNeverGoBack(t: Table, ops: seq<Operation>)
    requires Valid(t)
    ensures Valid(AppliedAll(t, ops)) && Later(t, AppliedAll(t, ops))
  {
    if ops != [] {
      RecordsNeverGoBack(t, ops[..|ops| - 1]);
      AppliedIsLater(AppliedAll(t, ops[..|ops| - 1]), ops[|ops| - 1]);
    }
  }

  /** The first call under a key owns it: a second one, at any later time, writes nothing. */
  lemma OneKeyOneCall(t: Table, first: Record, ops: seq<Operation>, second: Record)
    requires Valid(t) && first.key == second.key
    requires first.key in t.index || first.requestId !in t.rows
    ensures var u := AppliedAll(Applied(t, Append(first)), ops);
            && first.key in u.index
            && Applied(u, Append(second)) == u
            && u.index[first.key] == Applied(t, Append(first)).index[first.key]
  {
    AppliedIsLater(t, Append(first));
    RecordsNeverGoBack(Applied(t, Append(first)), ops);
  }
}
