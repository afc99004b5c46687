/** Subscriber callbacks per grill id (traeger.py `set_callback_for_grill`).
    Callbacks are named by handler ids; the same handler may be registered
    any number of times and then fires that many times. */
module Registry {
  import opened Telemetry

  type HandlerId = nat
  type Callbacks = map<GrillId, seq<HandlerId>>

  /** The handlers of `id`, in registration order. */
  function HandlersOf(reg: Callbacks, id: GrillId): seq<HandlerId>
  {
    if id in reg then reg[id] else []
  }

  /** Appends `h` to the handlers of `id`, creating the list on first use. */
  function Register(reg: Callbacks, id: GrillId, h: HandlerId): (reg': Callbacks)
    ensures HandlersOf(reg', id) == HandlersOf(reg, id) + [h]
    ensures reg'.Keys == reg.Keys + {id}
    ensures forall other :: other != id ==> HandlersOf(reg', other) == HandlersOf(reg, other)
  {
    reg[id := HandlersOf(reg, id) + [h]]
  }

  /** No deduplication: each registration adds one more firing of `h`. */
  lemma {:induction false} RegisterCounts(reg: Callbacks, id: GrillId, h: HandlerId, other: HandlerId)
    ensures multiset(HandlersOf(Register(reg, id, h), id))[h] == multiset(HandlersOf(reg, id))[h] + 1
    ensures other != h ==>
      multiset(HandlersOf(Register(reg, id, h), id))[other] == multiset(HandlersOf(reg, id))[other]
  {
    assert HandlersOf(Register(reg, id, h), id) == HandlersOf(reg, id) + [h];
  }
}
