/**
 Sessions bind a channel address to a conversation and a restaurant. Times are
 whole clock readings; fresh ids come from a counter that never repeats. A store
 that cannot be read or written ends an operation without any effect.
 */
module Sessions {
  import opened Basics
  import opened Conversation
  import Crm

  datatype Key = Key(channel: string, address: string)

  datatype Session = Session(
    id: nat, key: Key, conversationId: ConversationId, restaurantId: Option<string>,
    activeAgent: Option<string>, createdAt: int, lastActivity: int, messages: nat)

  datatype Registry = Registry(sessions: map<Key, Session>, nextId: nat)

  const NO_SESSIONS: Registry := Registry(map[], 0)

  /** The restaurant of the customer with this phone number, if customer memory has one. */
  function RestaurantFor(customers: Crm.Memory, address: string): Option<string> {
    var found := Crm.FoundByPhone(customers, address);
    if found.Some? && Given(found.value.profile.restaurantId) then found.value.profile.restaurantId else None
  }

  /** The clock readings of resolving a session: at its start, and two stamps for a new one. */
  datatype Clock = Clock(now: int, created: int, active: int)

  /** What can be out of order while a message is handled. */
  datatype Outage = NoTransport | DirectoryOutage | SessionOutage | CustomerOutage

  /** Whether the stores work, each time a message needs them. */
  datatype Health = Health(
    loads: bool,      // the session store can be read
    customers: bool,  // the customer store can be read
    stores: bool,     // the resolved session can be written
    updates: bool,    // a command can change the session
    records: bool)    // a turn can be recorded

  /** Whether resolving looks the address up among the customers. */
  predicate AsksCustomers(reg: Registry, key: Key) {
    && (key in reg.sessions ==> reg.sessions[key].restaurantId == None)
    && Crm.DigitsTail(key.address) != ""
  }

  function ResolvingOutage(reg: Registry, key: Key, health: Health): Option<Outage> {
    if !health.loads then Some(SessionOutage)
    else if AsksCustomers(reg, key) && !health.customers then Some(CustomerOutage)
    else if !health.stores then Some(SessionOutage)
    else None
  }

  function Stored(reg: Registry, session: Session): Registry {
    reg.(sessions := reg.sessions[session.key := session])
  }

  function Rotated(reg: Registry, session: Session): (Registry, Session) {
    var rotated := session.(conversationId := reg.nextId, activeAgent := None);
    (Stored(reg.(nextId := reg.nextId + 1), rotated), rotated)
  }

  function Bound(reg: Registry, session: Session, restaurantId: string): (Registry, Session) {
    var bound := session.(restaurantId := Some(restaurantId));
    (Stored(reg, bound), bound)
  }

  function Recorded(reg: Registry, session: Session, now: int, agent: string): (Registry, Session) {
    var active := session.(lastActivity := now, activeAgent := Some(agent), messages := session.messages + 1);
    (Stored(reg, active), active)
  }

  /** The session of an address: created, rotated when idle, or as it was. */
  function Fetched(reg: Registry, idle: int, key: Key, clock: Clock, customers: Crm.Memory)
    : (Registry, Session)
  {
    if key !in reg.sessions then
      (reg.(nextId := reg.nextId + 2),
       Session(reg.nextId, key, reg.nextId + 1, RestaurantFor(customers, key.address), None,
               clock.created, clock.active, 0))
    else if clock.now - reg.sessions[key].lastActivity > idle then
      (reg.(nextId := reg.nextId + 1),
       reg.sessions[key].(conversationId := reg.nextId, activeAgent := None))
    else (reg, reg.sessions[key])
  }

  /** That session, bound to a recognised restaurant if it had none, and stored. */
  function Resolved(reg: Registry, idle: int, key: Key, clock: Clock, customers: Crm.Memory)
    : (Registry, Session)
  {
    var (reg', session) := Fetched(reg, idle, key, clock, customers);
    var bound :=
      if session.restaurantId == None then session.(restaurantId := RestaurantFor(customers, key.address))
      else session;
    (reg'.(sessions := reg'.sessions[key := bound]), bound)
  }

  class SessionManager {
    const idle: int
    const customerMemory: Crm.CustomerMemory
    var sessions: map<Key, Session>
    var nextId: nat

    constructor (idle: int, customerMemory: Crm.CustomerMemory)
      ensures this.idle == idle && this.customerMemory == customerMemory && State() == NO_SESSIONS
    {
      this.idle, this.customerMemory, sessions, nextId := idle, customerMemory, map[], 0;
    }

    function State(): Registry
      reads this
    {
      Registry(sessions, nextId)
    }

    /** An address without digits is nobody's phone, and is not looked up. */
    method FindRestaurant(address: string, readable: bool) returns (restaurantId: Result<Option<string>, Outage>)
      ensures restaurantId == if Crm.DigitsTail(address) != "" && !readable then Err(CustomerOutage)
                              else Ok(RestaurantFor(customerMemory.State(), address))
    {
      if Crm.DigitsTail(address) != "" && !readable {
        return Err(CustomerOutage);
      }
      var record := customerMemory.FindByPhone(address);
      if record.Some? && Given(record.value.profile.restaurantId) {
        return Ok(record.value.profile.restaurantId);
      }
      return Ok(None);
    }

    /** Ids are taken when the session is written. */
    method Resolve(key: Key, clock: Clock, health: Health) returns (result: Result<Session, Outage>)
      modifies this
      ensures match ResolvingOutage(old(State()), key, health)
              case Some(outage) => result == Err(outage) && State() == old(State())
              case None =>
                result.Ok? && (State(), result.value)
                              == Resolved(old(State()), idle, key, clock, customerMemory.State())
    {
      if !health.loads {
        return Err(SessionOutage);
      }
      var session: Session;
      var next := nextId;
      if key !in sessions {
        session := Session(next, key, next + 1, None, None, clock.created, clock.active, 0);
        next := next + 2;
        var restaurantId := FindRestaurant(key.address, health.customers);
        if restaurantId.Err? {
          return Err(restaurantId.error);
        }
        session := session.(restaurantId := restaurantId.value);
      } else {
        session := sessions[key];
        if clock.now - session.lastActivity > idle {
          session := session.(conversationId := next, activeAgent := None);
          next := next + 1;
        }
      }
      assert (Registry(sessions, next), session) == Fetched(old(State()), idle, key, clock, customerMemory.State());
      if session.restaurantId == None {
        var restaurantId := FindRestaurant(key.address, health.customers);
        if restaurantId.Err? {
          return Err(restaurantId.error);
        }
        session := session.(restaurantId := restaurantId.value);
      }
      if !health.stores {
        return Err(SessionOutage);
      }
      sessions, nextId := sessions[key := session], next;
      result := Ok(session);
    }

    method BindRestaurant(session: Session, restaurantId: string, works: bool) returns (bound: Option<Session>)
      modifies this
      ensures if works then bound.Some? && (State(), bound.value) == Bound(old(State()), session, restaurantId)
              else bound == None && State() == old(State())
    {
      if !works {
        return None;
      }
      bound := Some(session.(restaurantId := Some(restaurantId)));
      sessions := sessions[session.key := bound.value];
    }

    method RotateConversation(session: Session, works: bool) returns (rotated: Option<Session>)
      modifies this
      ensures if works then rotated.Some? && (State(), rotated.value) == Rotated(old(State()), session)
              else rotated == None && State() == old(State())
    {
      if !works {
        return None;
      }
      rotated := Some(session.(conversationId := nextId, activeAgent := None));
      sessions, nextId := sessions[session.key := rotated.value], nextId + 1;
    }

    method RecordTurn(session: Session, now: int, activeAgent: string, works: bool) returns (active: Option<Session>)
      modifies this
      ensures if works then active.Some? && (State(), active.value) == Recorded(old(State()), session, now, activeAgent)
              else active == None && State() == old(State())
    {
      if !works {
        return None;
      }
      var updated := session.(lastActivity := now);
      updated := updated.(activeAgent := Some(activeAgent));
      updated := updated.(messages := updated.messages + 1);
      sessions := sessions[session.key := updated];
      active := Some(updated);
    }
  }
}
