/** The three data hooks `useDataEmployee`, `useDataProduct` and `useDataBlog`,
    which differ only in their entity: one class, parameterised by the entity.
    Each hook instance holds the record list, the `loading` flag and the `error`
    slot, and offers fetch/refresh, add, update and delete. Every operation
    issues one request and then updates the state from the outcome; the
    `sent` log records each request together with the `loading` flag and the
    `error` slot in force when it went out. Each operation runs to completion
    before the next starts. */
module DataHooks {
  import opened Fields
  import opened Js
  import opened Rest
  import opened RecordLists

  /** A request as it left, with the state the hook showed at that moment. */
  datatype Sent = Sent(request: Request, loading: bool, error: Option<string>)

  class Hook {
    const entity: Entity
    var items: seq<Record>
    var loading: bool
    var error: Option<string>
    var sent: seq<Sent>

    /** `useState([])`, `useState(true)`, `useState(null)`, then the mount effect,
        which fetches the list exactly once. */
    constructor (entity: Entity, server: Reply<seq<Record>>)
      ensures this.entity == entity
      ensures sent == [Sent(Request(GET, CollectionUrl(entity), None), true, None)]
      ensures !loading
      ensures server.Ok? ==> items == server.body && error == None
      ensures !server.Ok? ==> items == [] && error == Some(FetchErrorMessage(server))
    {
      this.entity := entity;
      items := [];
      loading := true;
      error := None;
      sent := [];
      new;
      Fetch(server);
    }

    /** `fetchX`: raise `loading`, clear `error`, GET the collection; on success
        the server's array replaces the list wholesale, on failure the list is
        kept and the error recorded; `loading` drops either way. */
    method Fetch(server: Reply<seq<Record>>)
      modifies this`items, this`loading, this`error, this`sent
      ensures sent == old(sent) + [Sent(Request(GET, CollectionUrl(entity), None), true, None)]
      ensures !loading
      ensures server.Ok? ==> items == server.body && error == None
      ensures !server.Ok? ==> items == old(items) && error == Some(FetchErrorMessage(server))
    {
      loading := true;
      error := None;
      var url := CollectionUrl(entity);
      sent := sent + [Sent(Request(GET, url, None), loading, error)];
      var reply := Transmit(url, server);
      match reply {
        case Ok(data) =>
          items := data;
        case _ =>
          error := Some(FetchErrorMessage(reply));
      }
      loading := false;
    }

    /** `refreshX`: nothing but a fetch. */
    method Refresh(server: Reply<seq<Record>>)
      modifies this`items, this`loading, this`error, this`sent
      ensures sent == old(sent) + [Sent(Request(GET, CollectionUrl(entity), None), true, None)]
      ensures !loading
      ensures server.Ok? ==> items == server.body && error == None
      ensures !server.Ok? ==> items == old(items) && error == Some(FetchErrorMessage(server))
    {
      Fetch(server);
    }

    /** `addX(data)`: clear `error`, POST `data` to the URL the hook names; on
        success append the record the server returned (not the payload) and
        resolve with it; on failure keep the list, record the error and reject
        with it. `loading` is untouched. The employee hook names a URL with a
        misspelt scheme, so its add never reaches the server. */
    method Add(data: Record, server: Reply<Record>) returns (outcome: Result<Record>)
      modifies this`items, this`error, this`sent
      ensures sent == old(sent) + [Sent(Request(POST, CreateUrlAsWritten(entity), Some(data)), loading, None)]
      ensures entity == Employee ==>
        items == old(items) && error == Some(FailedToFetch) && outcome == Rejected(FailedToFetch)
      ensures entity != Employee && server.Ok? ==>
        items == old(items) + [server.body] && error == None && outcome == Resolved(server.body)
      ensures entity != Employee && !server.Ok? ==>
        items == old(items) && error == Some(MutationErrorMessage(server)) &&
        outcome == Rejected(MutationErrorMessage(server))
    {
      if entity == Employee {
        EmployeeCreateAsWrittenAlwaysRejected(server);
      } else {
        CreateReachesServer(entity, server);
      }
      outcome := Post(CreateUrlAsWritten(entity), data, server);
    }

    /** The add every hook is meant to perform: the same steps, POSTing to the
        collection endpoint, so the server's answer always reaches the hook. */
    method AddCorrected(data: Record, server: Reply<Record>) returns (outcome: Result<Record>)
      modifies this`items, this`error, this`sent
      ensures sent == old(sent) + [Sent(Request(POST, CreateUrl(entity), Some(data)), loading, None)]
      ensures server.Ok? ==>
        items == old(items) + [server.body] && error == None && outcome == Resolved(server.body)
      ensures !server.Ok? ==>
        items == old(items) && error == Some(MutationErrorMessage(server)) &&
        outcome == Rejected(MutationErrorMessage(server))
    {
      CreateReachesServer(entity, server);
      outcome := Post(CreateUrl(entity), data, server);
    }

    /** The steps of an add, given the URL it POSTs to: the outcome follows what
        `fetch` settles with for that URL. */
    method Post(url: string, data: Record, server: Reply<Record>) returns (outcome: Result<Record>)
      modifies this`items, this`error, this`sent
      ensures sent == old(sent) + [Sent(Request(POST, url, Some(data)), loading, None)]
      ensures var reply := Transmit(url, server);
        && (reply.Ok? ==>
              items == old(items) + [reply.body] && error == None && outcome == Resolved(reply.body))
        && (!reply.Ok? ==>
              items == old(items) && error == Some(MutationErrorMessage(reply)) &&
              outcome == Rejected(MutationErrorMessage(reply)))
    {
      error := None;
      sent := sent + [Sent(Request(POST, url, Some(data)), loading, error)];
      var reply := Transmit(url, server);
      match reply {
        case Ok(created) =>
          items := items + [created];
          outcome := Resolved(created);
        case _ =>
          var message := MutationErrorMessage(reply);
          error := Some(message);
          outcome := Rejected(message);
      }
    }

    /** `updateX(id, data)`: clear `error`, PUT `data` to the item URL; on success
        every entry whose `_id` is `id` becomes the server's record, in place; on
        failure keep the list, record the error and reject with it. */
    method Update(id: Value, data: Record, server: Reply<Record>) returns (outcome: Result<Record>)
      modifies this`items, this`error, this`sent
      ensures sent == old(sent) + [Sent(Request(PUT, ItemUrl(entity, id), Some(data)), loading, None)]
      ensures server.Ok? ==>
        items == ReplaceByKey(old(items), UnderscoreId, id, server.body) && error == None &&
        outcome == Resolved(server.body)
      ensures !server.Ok? ==>
        items == old(items) && error == Some(MutationErrorMessage(server)) &&
        outcome == Rejected(MutationErrorMessage(server))
    {
      error := None;
      var url := ItemUrl(entity, id);
      sent := sent + [Sent(Request(PUT, url, Some(data)), loading, error)];
      var reply := Transmit(url, server);
      match reply {
        case Ok(updated) =>
          items := ReplaceByKey(items, UnderscoreId, id, updated);
          outcome := Resolved(updated);
        case _ =>
          var message := MutationErrorMessage(reply);
          error := Some(message);
          outcome := Rejected(message);
      }
    }

    /** `deleteX(id)`: clear `error`, DELETE the item URL; on success drop every
        entry whose `_id` is `id`; on failure keep the list, record the error and
        reject with it. Success is a 2xx status: the body is never read, so one
        that does not parse changes nothing. */
    method Delete(id: Value, server: Reply<()>) returns (outcome: Result<()>)
      modifies this`items, this`error, this`sent
      ensures sent == old(sent) + [Sent(Request(DELETE, ItemUrl(entity, id), None), loading, None)]
      ensures StatusOk(server) ==>
        items == RemoveByKey(old(items), UnderscoreId, id) && error == None && outcome == Resolved(())
      ensures !StatusOk(server) ==>
        items == old(items) && error == Some(MutationErrorMessage(server)) &&
        outcome == Rejected(MutationErrorMessage(server))
    {
      error := None;
      var url := ItemUrl(entity, id);
      sent := sent + [Sent(Request(DELETE, url, None), loading, error)];
      var reply := Transmit(url, server);
      if StatusOk(reply) {
        items := RemoveByKey(items, UnderscoreId, id);
        outcome := Resolved(());
      } else {
        var message := MutationErrorMessage(reply);
        error := Some(message);
        outcome := Rejected(message);
      }
    }
  }

  /** A caller's view of a hook, from the contracts alone. The add of `created`
      resolves except on the employee hook, whose add never reaches the server;
      either way, a successful delete of the new `_id` leaves no entry carrying
      it, and a second delete of the same `_id`, whether it succeeds or fails,
      leaves the list as the first one did. */
  method AddThenDeleteTwice(h: Hook, data: Record, created: Record,
                            first: Reply<()>, second: Reply<()>)
    modifies h`items, h`error, h`sent
    ensures var base := if h.entity == Employee then old(h.items) else old(h.items) + [created];
      && (StatusOk(first) ==>
            h.items == RemoveByKey(base, UnderscoreId, Get(created, UnderscoreId)) &&
            Count(h.items, UnderscoreId, Get(created, UnderscoreId)) == 0)
      && (!StatusOk(first) && !StatusOk(second) ==> h.items == base)
  {
    var id := Get(created, UnderscoreId);
    var added := h.Add(data, Ok(created));
    assert added.Resolved? <==> h.entity != Employee;
    var afterAdd := h.items;
    var r1 := h.Delete(id, first);
    var afterFirst := h.items;
    RemoveIdempotent(afterAdd, UnderscoreId, id);
    var r2 := h.Delete(id, second);
    assert h.items == afterFirst || h.items == RemoveByKey(afterFirst, UnderscoreId, id);
  }
}
