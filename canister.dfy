/** The canister's stable state and its four entry points. The id counter and
    the message map are fields that the update calls change in place; each
    method's contract gives the new state both directly and as the matching
    transition of module Backend, which module History runs in sequence. */
module Canister {
  import opened Backend

  class Store {
    /** Partition 0: the id counter. */
    var counter: u64
    /** Partition 1: the ordered map from id to message. */
    var storage: map<u64, Message>

    /** The state as a value, for the transitions of module Backend. */
    function Snapshot(): State
      reads this
    {
      State(counter, storage)
    }

    /** Every key is an issued id (1 up to the counter) and the id of its message. */
    predicate Valid()
      reads this
    {
      Backend.Valid(Snapshot())
    }

    /** First start: the counter initialised to 0 and an empty map. */
    constructor ()
      ensures Valid()
      ensures Snapshot() == Initial
    {
      counter := 0;
      storage := map[];
    }

    /** get_message: the stored message unchanged, or NotFound; changes nothing. */
    method GetMessage(id: u64) returns (r: Result<Message>)
      requires Valid()
      ensures r.Ok? <==> id in storage
      ensures r.Ok? ==> r.value == storage[id] && r.value.id == id
    {
      if id in storage {
        r := Ok(storage[id]);
      } else {
        r := Err(NotFound(""));
      }
    }

    /** add_message: increments the counter, and stores under the new value a
        record with that id, the payload's fields, created at now and never
        updated. The id was not a key before, so nothing is overwritten. */
    method AddMessage(payload: MessagePayload, now: u64) returns (r: Option<Message>)
      requires Valid()
      requires counter < U64_MAX
      modifies this
      ensures Valid()
      ensures counter == old(counter) + 1
      ensures r == Some(Message(counter, payload.title, payload.body, payload.attachmentUrl, now, None))
      ensures counter !in old(storage)
      ensures storage == old(storage)[counter := r.value]
      ensures (Snapshot(), r.value) == Add(old(Snapshot()), payload, now)
    {
      counter := counter + 1;
      var id := counter;
      var message := Message(id, payload.title, payload.body, payload.attachmentUrl, now, None);
      storage := storage[id := message];
      r := Some(message);
    }

    /** update_message: NotFound and no change for an absent id; otherwise the
        stored record with the payload's fields and updated at now, keeping its
        id and creation time, stored back under the same key and returned. */
    method UpdateMessage(id: u64, payload: MessagePayload, now: u64) returns (r: Result<Message>)
      requires Valid()
      modifies this
      ensures Valid()
      ensures counter == old(counter)
      ensures r.Err? <==> id !in old(storage)
      ensures r.Err? ==> storage == old(storage)
      ensures r.Ok? ==> var m := old(storage)[id];
        && r.value == Message(m.id, payload.title, payload.body, payload.attachmentUrl, m.createdAt, Some(now))
        && r.value.id == id
        && storage == old(storage)[id := r.value]
      ensures Snapshot() == Update(old(Snapshot()), id, payload, now).0
    {
      if id !in storage {
        r := Err(NotFound(""));
        return;
      }
      var msg := storage[id];
      msg := msg.(title := payload.title);
      msg := msg.(body := payload.body);
      msg := msg.(attachmentUrl := payload.attachmentUrl);
      msg := msg.(updatedAt := Some(now));
      storage := storage[id := msg];
      r := Ok(msg);
    }

    /** delete_message: removes the key and returns the message it held, or
        NotFound and no change; the counter is never touched. */
    method DeleteMessage(id: u64) returns (r: Result<Message>)
      requires Valid()
      modifies this
      ensures Valid()
      ensures counter == old(counter)
      ensures r.Err? <==> id !in old(storage)
      ensures r.Ok? ==> r.value == old(storage)[id] && r.value.id == id
      ensures storage == old(storage) - {id}
      ensures Snapshot() == Delete(old(Snapshot()), id).0
    {
      if id in storage {
        var m := storage[id];
        storage := storage - {id};
        r := Ok(m);
      } else {
        r := Err(NotFound(""));
      }
    }
  }
}
