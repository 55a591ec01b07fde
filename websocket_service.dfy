/** The real-time channel to the print server (`WebSocketService`).

    Listeners are registered per message type and called in registration order. A close
    event schedules a reconnect while fewer than five attempts have been made, and an
    open event resets the count. Messages are sent only on an open socket. The browser's
    socket is abstract: its events (open, close, a message) are method calls, a socket
    is known by a number, and the three-second reconnect delay is a pending timer whose
    firing is a method call. Each socket's handlers act on the service whichever socket
    is current, so an open or close event of a replaced or disconnected socket still
    resets the count or schedules a reconnect.

    The listener registry is a plain object, so a type named like a property of
    `Object.prototype` already holds that inherited, truthy value: registering, removing
    or notifying under such a type throws a `TypeError` and changes nothing. A listener
    that throws ends the `forEach`: later listeners of that message are not called, and
    `onmessage`'s `catch` swallows the error. */
module WebSocket {
  import opened Wrappers

  const MaxReconnectAttempts: nat := 5
  const NotInitializedMessage: string := "WebSocketService not initialized"

  /** The `readyState` of a browser socket. */
  datatype ReadyState = Connecting | Open | Closing | Closed

  /** The socket the service holds: the number of the `new WebSocket(...)` that made it,
      and its state. */
  datatype Socket = Socket(id: nat, state: ReadyState)

  /** A listener, compared by identity as the source's `!==` compares functions. */
  type ListenerRef = nat

  /** `{ type, data }` as it goes over the wire; `data` is the JSON text of the payload. */
  datatype WireMessage = WireMessage(messageType: string, data: string)

  /** One call `listener(data)`. */
  datatype Invocation = Invocation(listener: ListenerRef, data: string)

  /** The properties every object inherits from `Object.prototype`. */
  const PrototypeNames: set<string> := {
    "constructor", "hasOwnProperty", "isPrototypeOf", "propertyIsEnumerable",
    "toLocaleString", "toString", "valueOf", "__proto__",
    "__defineGetter__", "__defineSetter__", "__lookupGetter__", "__lookupSetter__"
  }

  /** `this.listeners[type]` is an inherited property rather than an own list, so the
      array methods called on it throw. */
  predicate InheritedEntry(listeners: map<string, seq<ListenerRef>>, messageType: string) {
    messageType !in listeners && messageType in PrototypeNames
  }

  /** `calls` is what `ls.forEach(listener => listener(data))` makes when `throws` says
      which calls throw: the listeners in order, each with the data, stopping right after
      the first call that throws. */
  ghost predicate StopsAtFirstThrow(calls: seq<Invocation>, ls: seq<ListenerRef>, data: string, throws: Invocation -> bool) {
    && |calls| <= |ls|
    && (forall k :: 0 <= k < |calls| ==> calls[k] == Invocation(ls[k], data))
    && (forall k :: 0 <= k < |calls| - 1 ==> !throws(calls[k]))
    && (|calls| < |ls| ==> |calls| > 0 && throws(calls[|calls| - 1]))
  }

  /** The calls a `forEach` makes are determined by the listeners, the data and which calls
      throw; with no throwing call every listener is called. */
  lemma StopsAtFirstThrowUnique(a: seq<Invocation>, b: seq<Invocation>, ls: seq<ListenerRef>, data: string, throws: Invocation -> bool)
    requires StopsAtFirstThrow(a, ls, data, throws) && StopsAtFirstThrow(b, ls, data, throws)
    ensures a == b
    ensures (forall k :: 0 <= k < |ls| ==> !throws(Invocation(ls[k], data))) ==> |a| == |ls|
  {
  }

  /** `list.filter(l => l !== listener)`. */
  function Without(ls: seq<ListenerRef>, listener: ListenerRef): (r: seq<ListenerRef>)
    ensures forall x :: x in r <==> x in ls && x != listener
  {
    if ls == [] then []
    else if ls[0] == listener then Without(ls[1..], listener)
    else [ls[0]] + Without(ls[1..], listener)
  }

  /** Filtering keeps the other listeners in their order: it distributes over
      concatenation, and leaves a list without the listener as it is. */
  lemma {:induction false} WithoutKeepsOrder(a: seq<ListenerRef>, b: seq<ListenerRef>, listener: ListenerRef)
    ensures Without(a + b, listener) == Without(a, listener) + Without(b, listener)
  {
    if a == [] {
      assert a + b == b;
    } else {
      assert (a + b)[0] == a[0];
      assert (a + b)[1..] == a[1..] + b;
      WithoutKeepsOrder(a[1..], b, listener);
    }
  }

  /** A list that does not hold the listener is left as it is. */
  lemma {:induction false} WithoutAbsent(ls: seq<ListenerRef>, listener: ListenerRef)
    requires listener !in ls
    ensures Without(ls, listener) == ls
  {
    if ls != [] {
      WithoutAbsent(ls[1..], listener);
    }
  }

  /** Filtering removes every registration of the listener and only those: each other
      listener keeps its number of registrations. */
  lemma {:induction false} WithoutCounts(ls: seq<ListenerRef>, listener: ListenerRef)
    ensures multiset(Without(ls, listener)) == multiset(ls)[listener := 0]
  {
    if ls != [] {
      WithoutCounts(ls[1..], listener);
      assert ls == [ls[0]] + ls[1..];
      assert multiset(ls) == multiset([ls[0]]) + multiset(ls[1..]);
    }
  }

  /** The listeners registered for a type, none when the type has no entry. */
  function Registered(listeners: map<string, seq<ListenerRef>>, messageType: string): seq<ListenerRef> {
    if messageType in listeners then listeners[messageType] else []
  }

  class WebSocketService {
    const serverUrl: string
    var socket: Option<Socket>
    /** How many sockets this service has created; the next one gets this number. */
    var nextSocketId: nat
    var reconnectAttempts: nat
    /** Reconnect timers that have been started and have not fired yet. */
    var pendingReconnects: nat
    var listeners: map<string, seq<ListenerRef>>
    /** Everything handed to `socket.send`, oldest first. */
    var sent: seq<WireMessage>

    ghost predicate Valid()
      reads this
    {
      && reconnectAttempts <= MaxReconnectAttempts
      && (socket.Some? ==> socket.value.id < nextSocketId)
    }

    constructor (url: string)
      ensures Valid()
      ensures serverUrl == url && socket.None? && nextSocketId == 0
      ensures reconnectAttempts == 0 && pendingReconnects == 0 && listeners == map[] && sent == []
    {
      serverUrl := url;
      socket := None;
      nextSocketId := 0;
      reconnectAttempts := 0;
      pendingReconnects := 0;
      listeners := map[];
      sent := [];
    }

    /** `connect`: `created` says whether `new WebSocket(serverUrl)` succeeded; when it
        throws, the old socket stays. */
    method Connect(created: bool)
      requires Valid()
      modifies this
      ensures Valid()
      ensures created ==> socket == Some(Socket(old(nextSocketId), Connecting)) && nextSocketId == old(nextSocketId) + 1
      ensures !created ==> socket == old(socket) && nextSocketId == old(nextSocketId)
      ensures reconnectAttempts == old(reconnectAttempts) && pendingReconnects == old(pendingReconnects)
      ensures listeners == old(listeners) && sent == old(sent)
    {
      if created {
        socket := Some(Socket(nextSocketId, Connecting));
        nextSocketId := nextSocketId + 1;
      }
    }

    /** `onopen` of socket `id`: the attempt count goes back to 0. */
    method SocketOpened(id: nat)
      requires Valid() && id < nextSocketId
      modifies this
      ensures Valid()
      ensures reconnectAttempts == 0
      ensures socket == if old(socket).Some? && old(socket).value.id == id then Some(Socket(id, Open)) else old(socket)
      ensures nextSocketId == old(nextSocketId) && pendingReconnects == old(pendingReconnects)
      ensures listeners == old(listeners) && sent == old(sent)
    {
      reconnectAttempts := 0;
      if socket.Some? && socket.value.id == id {
        socket := Some(Socket(id, Open));
      }
    }

    /** `onclose` of socket `id`, then `handleReconnect`: below the maximum the count goes
        up by one and a reconnect timer starts; at the maximum nothing is scheduled. */
    method SocketClosed(id: nat)
      requires Valid() && id < nextSocketId
      modifies this
      ensures Valid()
      ensures socket == if old(socket).Some? && old(socket).value.id == id then Some(Socket(id, Closed)) else old(socket)
      ensures old(reconnectAttempts) < MaxReconnectAttempts ==>
        reconnectAttempts == old(reconnectAttempts) + 1 && pendingReconnects == old(pendingReconnects) + 1
      ensures old(reconnectAttempts) >= MaxReconnectAttempts ==>
        reconnectAttempts == old(reconnectAttempts) && pendingReconnects == old(pendingReconnects)
      ensures nextSocketId == old(nextSocketId) && listeners == old(listeners) && sent == old(sent)
    {
      if socket.Some? && socket.value.id == id {
        socket := Some(Socket(id, Closed));
      }
      HandleReconnect();
    }

    /** `handleReconnect`. */
    method HandleReconnect()
      requires Valid()
      modifies this
      ensures Valid()
      ensures old(reconnectAttempts) < MaxReconnectAttempts ==>
        reconnectAttempts == old(reconnectAttempts) + 1 && pendingReconnects == old(pendingReconnects) + 1
      ensures old(reconnectAttempts) >= MaxReconnectAttempts ==>
        reconnectAttempts == old(reconnectAttempts) && pendingReconnects == old(pendingReconnects)
      ensures socket == old(socket) && nextSocketId == old(nextSocketId)
      ensures listeners == old(listeners) && sent == old(sent)
    {
      if reconnectAttempts < MaxReconnectAttempts {
        reconnectAttempts := reconnectAttempts + 1;
        pendingReconnects := pendingReconnects + 1;
      }
    }

    /** A reconnect timer fires and calls `connect`; with no timer pending nothing happens. */
    method ReconnectTimerFired(created: bool)
      requires Valid()
      modifies this
      ensures Valid()
      ensures old(pendingReconnects) == 0 ==> socket == old(socket) && nextSocketId == old(nextSocketId) && pendingReconnects == 0
      ensures old(pendingReconnects) > 0 ==> pendingReconnects == old(pendingReconnects) - 1
      ensures old(pendingReconnects) > 0 && created ==>
        socket == Some(Socket(old(nextSocketId), Connecting)) && nextSocketId == old(nextSocketId) + 1
      ensures old(pendingReconnects) > 0 && !created ==> socket == old(socket) && nextSocketId == old(nextSocketId)
      ensures reconnectAttempts == old(reconnectAttempts) && listeners == old(listeners) && sent == old(sent)
    {
      if pendingReconnects == 0 {
        return;
      }
      pendingReconnects := pendingReconnects - 1;
      Connect(created);
    }

    /** `disconnect`: closes the socket, if any, and forgets it. The socket's own close
        event comes later, through `SocketClosed`. */
    method Disconnect()
      requires Valid()
      modifies this
      ensures Valid()
      ensures socket.None?
      ensures nextSocketId == old(nextSocketId) && reconnectAttempts == old(reconnectAttempts)
      ensures pendingReconnects == old(pendingReconnects) && listeners == old(listeners) && sent == old(sent)
    {
      if socket.Some? {
        socket := Some(Socket(socket.value.id, Closing));
        socket := None;
      }
    }

    /** `send`: transmits only on an open socket; otherwise nothing is sent. */
    method Send(messageType: string, data: string) returns (transmitted: bool)
      modifies this
      ensures transmitted <==> old(socket).Some? && old(socket).value.state == Open
      ensures sent == if transmitted then old(sent) + [WireMessage(messageType, data)] else old(sent)
      ensures socket == old(socket) && nextSocketId == old(nextSocketId)
      ensures reconnectAttempts == old(reconnectAttempts) && pendingReconnects == old(pendingReconnects)
      ensures listeners == old(listeners)
    {
      if socket.Some? && socket.value.state == Open {
        sent := sent + [WireMessage(messageType, data)];
        return true;
      }
      return false;
    }

    /** `on`: appends the listener to its type's list, creating the list if needed; under
        an inherited type the `push` throws and nothing changes. */
    method On(messageType: string, listener: ListenerRef) returns (threw: bool)
      modifies this
      ensures threw <==> InheritedEntry(old(listeners), messageType)
      ensures listeners == if threw then old(listeners)
        else old(listeners)[messageType := Registered(old(listeners), messageType) + [listener]]
      ensures socket == old(socket) && nextSocketId == old(nextSocketId) && sent == old(sent)
      ensures reconnectAttempts == old(reconnectAttempts) && pendingReconnects == old(pendingReconnects)
    {
      if InheritedEntry(listeners, messageType) {
        return true;
      }
      if messageType !in listeners {
        listeners := listeners[messageType := []];
      }
      listeners := listeners[messageType := listeners[messageType] + [listener]];
      return false;
    }

    /** `off`: removes every registration of the listener for that type; a type without an
        entry is left without one, and under an inherited type the `filter` throws. */
    method Off(messageType: string, listener: ListenerRef) returns (threw: bool)
      modifies this
      ensures threw <==> InheritedEntry(old(listeners), messageType)
      ensures messageType in old(listeners) ==>
        listeners == old(listeners)[messageType := Without(old(listeners)[messageType], listener)]
      ensures messageType !in old(listeners) ==> listeners == old(listeners)
      ensures socket == old(socket) && nextSocketId == old(nextSocketId) && sent == old(sent)
      ensures reconnectAttempts == old(reconnectAttempts) && pendingReconnects == old(pendingReconnects)
    {
      if InheritedEntry(listeners, messageType) {
        return true;
      }
      if messageType in listeners {
        listeners := listeners[messageType := Without(listeners[messageType], listener)];
      }
      return false;
    }

    /** `notifyListeners`: calls the type's listeners in registration order, each with the
        message's data, until one throws; `threw` says whether the call ends in an error,
        which is also the case, before any listener runs, under an inherited type. */
    method NotifyListeners(messageType: string, data: string, throws: Invocation -> bool)
      returns (calls: seq<Invocation>, threw: bool)
      ensures InheritedEntry(listeners, messageType) ==> calls == [] && threw
      ensures !InheritedEntry(listeners, messageType) ==>
        && StopsAtFirstThrow(calls, Registered(listeners, messageType), data, throws)
        && (threw <==> |calls| > 0 && throws(calls[|calls| - 1]))
    {
      if InheritedEntry(listeners, messageType) {
        return [], true;
      }
      calls, threw := [], false;
      if messageType in listeners {
        var ls := listeners[messageType];
        var i := 0;
        while i < |ls| && !threw
          invariant 0 <= i <= |ls|
          invariant |calls| == i
          invariant forall k :: 0 <= k < i ==> calls[k] == Invocation(ls[k], data)
          invariant forall k :: 0 <= k < i - 1 ==> !throws(calls[k])
          invariant threw <==> i > 0 && throws(calls[i - 1])
        {
          var call := Invocation(ls[i], data);
          calls := calls + [call];
          threw := throws(call);
          i := i + 1;
        }
      }
    }

    /** `onmessage`: `parsed` is the message `JSON.parse` gave, or none when it threw. The
        `catch` swallows a parse error and an error thrown while notifying alike. */
    method MessageReceived(parsed: Option<WireMessage>, throws: Invocation -> bool) returns (calls: seq<Invocation>)
      ensures parsed.None? ==> calls == []
      ensures parsed.Some? && InheritedEntry(listeners, parsed.value.messageType) ==> calls == []
      ensures parsed.Some? && !InheritedEntry(listeners, parsed.value.messageType) ==>
        StopsAtFirstThrow(calls, Registered(listeners, parsed.value.messageType), parsed.value.data, throws)
    {
      if parsed.None? {
        return [];
      }
      var threw;
      calls, threw := NotifyListeners(parsed.value.messageType, parsed.value.data, throws);
    }
  }

  /** A listener registered twice and then removed is gone from its type, the type's other
      listener stays, and a type nobody registered notifies no one. */
  method RegistryScenario() returns (jobCalls: seq<Invocation>, errorCalls: seq<Invocation>)
    ensures jobCalls == [Invocation(2, "{}")]
    ensures errorCalls == []
  {
    var service := new WebSocketService("wss://example.test/ws");
    assert "job_status" !in PrototypeNames && "error" !in PrototypeNames;
    var threw := service.On("job_status", 1);
    threw := service.On("job_status", 2);
    threw := service.On("job_status", 1);
    assert service.listeners["job_status"] == [1, 2, 1] && "error" !in service.listeners;
    threw := service.Off("job_status", 1);
    assert Without([1, 2, 1], 1) == [2];
    var none := (call: Invocation) => false;
    jobCalls, threw := service.NotifyListeners("job_status", "{}", none);
    StopsAtFirstThrowUnique(jobCalls, [Invocation(2, "{}")], [2], "{}", none);
    errorCalls, threw := service.NotifyListeners("error", "{}", none);
  }

  /** A throwing listener stops the listeners after it, and a type named `constructor`
      cannot be registered. */
  method ThrowScenario() returns (stopped: seq<Invocation>, threw: bool, inheritedThrew: bool)
    ensures stopped == [Invocation(2, "{}")] && threw
    ensures inheritedThrew
  {
    var service := new WebSocketService("wss://example.test/ws");
    assert "job_status" !in PrototypeNames;
    var ignored := service.On("job_status", 2);
    ignored := service.On("job_status", 3);
    var stopAt2 := (call: Invocation) => call.listener == 2;
    stopped, threw := service.NotifyListeners("job_status", "{}", stopAt2);
    StopsAtFirstThrowUnique(stopped, [Invocation(2, "{}")], [2, 3], "{}", stopAt2);
    inheritedThrew := service.On("constructor", 4);
  }

  /** After five closes without an open, a sixth close schedules nothing; an open resets
      the count. The close event of a disconnected socket still schedules a reconnect,
      because `disconnect` does not detach the socket's handlers. */
  method ReconnectScenario() returns (attemptsAtLimit: nat, pendingAfterDisconnect: nat, sentWhileDisconnected: bool)
    ensures attemptsAtLimit == MaxReconnectAttempts
    ensures pendingAfterDisconnect == MaxReconnectAttempts + 1
    ensures !sentWhileDisconnected
  {
    var service := new WebSocketService("wss://example.test/ws");
    service.Connect(true);
    var n := 0;
    while n < 5
      invariant 0 <= n <= 5
      invariant service.Valid() && service.nextSocketId == 1
      invariant service.reconnectAttempts == n && service.pendingReconnects == n
    {
      service.SocketClosed(0);
      n := n + 1;
    }
    service.SocketClosed(0);
    attemptsAtLimit := service.reconnectAttempts;
    service.SocketOpened(0);
    assert service.reconnectAttempts == 0;
    service.Disconnect();
    service.SocketClosed(0);
    pendingAfterDisconnect := service.pendingReconnects;
    sentWhileDisconnected := service.Send("job_status", "{}");
  }

  /** The module-level `instance` of the service. */
  class ServiceSingleton {
    var instance: WebSocketService?

    constructor ()
      ensures instance == null
    {
      instance := null;
    }

    /** `getWebSocketService(url?)`: creates the service only when there is none and a
        non-empty url is given; fails while there still is none. */
    method GetWebSocketService(url: Option<string>) returns (r: Result<WebSocketService, string>)
      modifies this
      ensures old(instance) != null ==> instance == old(instance) && r == Success(old(instance))
      ensures old(instance) == null && url.Some? && url.value != "" ==>
        instance != null && fresh(instance) && instance.serverUrl == url.value && instance.Valid() &&
        instance.socket.None? && instance.listeners == map[] && r == Success(instance)
      ensures old(instance) == null && (url.None? || url.value == "") ==>
        instance == null && r == Failure(NotInitializedMessage)
    {
      if instance == null && url.Some? && url.value != "" {
        instance := new WebSocketService(url.value);
      }
      if instance == null {
        return Failure(NotInitializedMessage);
      }
      return Success(instance);
    }

    /** `initWebSocketService(url)`: always replaces the service with a new one. */
    method InitWebSocketService(url: string) returns (service: WebSocketService)
      modifies this
      ensures fresh(service) && instance == service && service.serverUrl == url && service.Valid()
      ensures service.socket.None? && service.listeners == map[]
    {
      instance := new WebSocketService(url);
      service := instance;
    }
  }
}
