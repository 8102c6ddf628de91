/** The message store of the canister backend: its record types and the four
    operations (get, add, update, delete) as pure transitions on the pair
    (id counter, ordered map from id to message). The class in module
    Canister performs the same transitions in place; module History runs them
    in sequence. */
module Backend {

  /** Rust's u64; ids and timestamps are of this type. */
  newtype u64 = x: int | 0 <= x <= 0xFFFF_FFFF_FFFF_FFFF

  const U64_MAX: u64 := 0xFFFF_FFFF_FFFF_FFFF

  datatype Option<T> = None | Some(value: T)

  /** The persisted record. */
  datatype Message = Message(
    id: u64,
    title: string,
    body: string,
    attachmentUrl: string,
    createdAt: u64,
    updatedAt: Option<u64>)

  /** The input of add and update: the caller-supplied text fields only. */
  datatype MessagePayload = MessagePayload(title: string, body: string, attachmentUrl: string)

  /** The single error kind. Its text is not constrained by any contract. */
  datatype Error = NotFound(msg: string)

  datatype Result<T> = Ok(value: T) | Err(error: Error)

  /** The two stable partitions: the id counter and the id-to-message map. */
  datatype State = State(counter: u64, storage: map<u64, Message>)

  /** The state at first start: the counter initialised to 0, no messages. */
  const Initial: State := State(0, map[])

  /** Every stored key was issued by the counter and is the id of its message. */
  predicate Valid(s: State)
  {
    forall k :: k in s.storage ==> 1 <= k <= s.counter && s.storage[k].id == k
  }

  /** The record add_message builds from a payload. */
  function Fresh(id: u64, p: MessagePayload, now: u64): (m: Message)
  {
    Message(id, p.title, p.body, p.attachmentUrl, now, None)
  }

  /** The record update_message builds: payload fields and update time replaced. */
  function Revise(m: Message, p: MessagePayload, now: u64): (m': Message)
  {
    m.(title := p.title, body := p.body, attachmentUrl := p.attachmentUrl, updatedAt := Some(now))
  }

  /** get_message: the stored message, or NotFound. */
  function Get(s: State, id: u64): (r: Result<Message>)
    ensures r.Err? <==> id !in s.storage
    ensures r.Ok? ==> r.value == s.storage[id]
    ensures Valid(s) && r.Ok? ==> r.value.id == id
  {
    if id in s.storage then Ok(s.storage[id]) else Err(NotFound(""))
  }

  /** add_message: the counter is incremented and its new value is the id of the
      new record, stored under that id. */
  function Add(s: State, p: MessagePayload, now: u64): (r: (State, Message))
    requires s.counter < U64_MAX
    ensures r.0.counter == s.counter + 1 && r.1.id == r.0.counter
    ensures r.1.title == p.title && r.1.body == p.body && r.1.attachmentUrl == p.attachmentUrl
    ensures r.1.createdAt == now && r.1.updatedAt == None
    ensures Get(r.0, r.1.id) == Ok(r.1)
    ensures forall k :: k != r.1.id ==> Get(r.0, k) == Get(s, k)
    ensures Valid(s) ==> Valid(r.0) && r.1.id !in s.storage
    ensures Valid(s) ==> forall k :: k in s.storage ==> k < r.1.id
  {
    var id := s.counter + 1;
    var m := Fresh(id, p, now);
    (State(id, s.storage[id := m]), m)
  }

  /** update_message: NotFound and no change when the id is absent; otherwise the
      payload fields and the update time replace the stored ones. */
  function Update(s: State, id: u64, p: MessagePayload, now: u64): (r: (State, Result<Message>))
    ensures r.1.Err? <==> id !in s.storage
    ensures r.1.Err? ==> r.0 == s
    ensures r.1.Ok? ==> Get(r.0, id) == r.1 && r.0.counter == s.counter
    ensures r.1.Ok? ==> var old_m, m := s.storage[id], r.1.value;
      && m.id == old_m.id && m.createdAt == old_m.createdAt
      && m.title == p.title && m.body == p.body && m.attachmentUrl == p.attachmentUrl
      && m.updatedAt == Some(now)
    ensures forall k :: k != id ==> Get(r.0, k) == Get(s, k)
    ensures Valid(s) ==> Valid(r.0)
  {
    if id in s.storage then
      var m := Revise(s.storage[id], p, now);
      (s.(storage := s.storage[id := m]), Ok(m))
    else
      (s, Err(NotFound("")))
  }

  /** delete_message: the removed message, or NotFound and no change. */
  function Delete(s: State, id: u64): (r: (State, Result<Message>))
    ensures r.1.Err? <==> id !in s.storage
    ensures r.1.Ok? ==> r.1.value == s.storage[id]
    ensures Get(r.0, id).Err?
    ensures r.0.counter == s.counter
    ensures forall k :: k != id ==> Get(r.0, k) == Get(s, k)
    ensures Valid(s) ==> Valid(r.0)
  {
    if id in s.storage then
      (s.(storage := s.storage - {id}), Ok(s.storage[id]))
    else
      (s, Err(NotFound("")))
  }

  /** Deleting the record just added restores the map; the counter stays
      advanced, so the id is spent. */
  lemma AddThenDelete(s: State, p: MessagePayload, now: u64)
    requires s.counter < U64_MAX && Valid(s)
    ensures var (s1, m) := Add(s, p, now);
      var (s2, r) := Delete(s1, m.id);
      r == Ok(m) && s2.storage == s.storage && s2.counter == s.counter + 1
  {
  }

  /** Two updates of the same record: the second overwrites everything the
      first set, so only the last payload and time survive. */
  lemma UpdateTwice(s: State, id: u64, p: MessagePayload, q: MessagePayload, t: u64, u: u64)
    ensures Update(Update(s, id, p, t).0, id, q, u) == Update(s, id, q, u)
  {
    if id in s.storage {
      var m := s.storage[id];
      assert Revise(Revise(m, p, t), q, u) == Revise(m, q, u);
      assert s.storage[id := Revise(m, p, t)][id := Revise(m, q, u)] == s.storage[id := Revise(m, q, u)];
    }
  }
}
