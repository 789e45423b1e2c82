/**
 The handler of events pushed by a server: it renders each event as a balloon
 notification titled with the connection's name, and keeps a single slot
 holding the most recent notification, expiring the previous one first.
 The notifications the handler has created are kept in creation order; the
 slot refers to one of them by position.
 */
module ServerEventHandler {
  import opened Wrappers
  import opened Host

  /**
   A server event. Only rule activation is recognised; any other event is
   shown through its textual rendering, which is carried here as given.
   */
  datatype Event = RuleActivated(ruleKey: string) | OtherEvent(rendering: string)

  /** The handler only ever creates information notifications. */
  datatype NotificationType = Information

  datatype Notification = Notification(
    title: string,
    content: string,
    kind: NotificationType,
    important: bool,
    expired: bool)

  /** The notifications created so far and the slot holding the current one. */
  datatype Handler = Handler(shown: seq<Notification>, current: Option<nat>)

  const RulePrefix := "Rule activated: "
  const MessagePrefix := "Message received: "
  const TitlePrefix := "Event received from "

  const InitialHandler := Handler([], None)

  /** The slot refers to a created notification. */
  predicate Valid(h: Handler) {
    h.current.Some? ==> h.current.value < |h.shown|
  }

  /** The text shown for an event. */
  function MessageOf(event: Event): (text: string)
    ensures event.RuleActivated? ==> text == RulePrefix + event.ruleKey
    ensures event.OtherEvent? ==> text == MessagePrefix + event.rendering
  {
    match event
    case RuleActivated(key) => RulePrefix + key
    case OtherEvent(rendering) => MessagePrefix + rendering
  }

  /** The title of a notification for a connection. */
  function TitleOf(connectionName: string): (title: string)
    ensures |title| == |TitlePrefix| + |connectionName|
    ensures title[..|TitlePrefix|] == TitlePrefix && title[|TitlePrefix|..] == connectionName
  {
    TitlePrefix + connectionName
  }

  /** Reads the rule key back out of a shown text, if it announces a rule activation. */
  function RuleKeyOf(text: string): (key: Option<string>)
    ensures key.Some? ==> text == RulePrefix + key.value
  {
    if |text| >= |RulePrefix| && text[..|RulePrefix|] == RulePrefix
    then
      assert text == text[..|RulePrefix|] + text[|RulePrefix|..];
      Some(text[|RulePrefix|..])
    else None
  }

  /** A rule activation's key is recovered from its text; no other event reads as one. */
  lemma MessageRoundTrip(event: Event)
    ensures event.RuleActivated? ==> RuleKeyOf(MessageOf(event)) == Some(event.ruleKey)
    ensures event.OtherEvent? ==> RuleKeyOf(MessageOf(event)) == None
  {
    var text := MessageOf(event);
    if event.RuleActivated? {
      assert text[..|RulePrefix|] == RulePrefix;
      assert text[|RulePrefix|..] == event.ruleKey;
    } else {
      assert text[0] == 'M';
      assert |text| < |RulePrefix| || text[..|RulePrefix|][0] == 'M';
    }
  }

  /**
   Distinct rule keys, and distinct renderings of other events, give distinct
   texts; no rule activation shares its text with another event.
   */
  lemma MessageInjective(a: Event, b: Event)
    requires MessageOf(a) == MessageOf(b)
    ensures a == b
  {
    MessageRoundTrip(a);
    MessageRoundTrip(b);
    if a.OtherEvent? && b.OtherEvent? {
      assert a.rendering == MessageOf(a)[|MessagePrefix|..];
      assert b.rendering == MessageOf(b)[|MessagePrefix|..];
    }
  }

  /** Distinct connection names give distinct titles. */
  lemma TitleInjective(a: string, b: string)
    requires TitleOf(a) == TitleOf(b)
    ensures a == b
  {
    assert a == TitleOf(a)[|TitlePrefix|..];
  }

  /** The notification the current slot holds expires, if there is one. */
  function ExpireCurrent(h: Handler): (shown: seq<Notification>)
    requires Valid(h)
    ensures |shown| == |h.shown|
    ensures forall i | 0 <= i < |shown| ::
      shown[i] == h.shown[i].(expired := h.shown[i].expired || h.current == Some(i))
  {
    match h.current
    case None => h.shown
    case Some(i) => h.shown[i := h.shown[i].(expired := true)]
  }

  /**
   Handling an event: the current notification expires, a new important
   information notification about the event is created and shown, and the
   slot moves to it.
   */
  function Handle(h: Handler, connection: ServerConnection, event: Event): (r: Handler)
    requires Valid(h)
    ensures Valid(r)
    ensures |r.shown| == |h.shown| + 1
    ensures r.current == Some(|h.shown|)
    ensures r.shown[|h.shown|] ==
      Notification(TitleOf(connection.name), MessageOf(event), Information, true, false)
    ensures forall i | 0 <= i < |h.shown| ::
      r.shown[i].expired == (h.shown[i].expired || h.current == Some(i)) &&
      r.shown[i] == h.shown[i].(expired := r.shown[i].expired)
  {
    var notification := Notification(TitleOf(connection.name), MessageOf(event), Information, true, false);
    Handler(ExpireCurrent(h) + [notification], Some(|h.shown|))
  }

  /**
   At most one notification of the handler is live: the most recent one,
   which is the one in the slot.
   */
  predicate OneLive(h: Handler) {
    Valid(h) &&
    forall i | 0 <= i < |h.shown| && !h.shown[i].expired :: i == |h.shown| - 1 && h.current == Some(i)
  }

  lemma InitialOneLive()
    ensures OneLive(InitialHandler)
  {
  }

  lemma HandlePreservesOneLive(h: Handler, connection: ServerConnection, event: Event)
    requires OneLive(h)
    ensures OneLive(Handle(h, connection, event))
  {
  }

  /** Handles a sequence of events, all from one connection, in order. */
  function HandleAll(h: Handler, connection: ServerConnection, events: seq<Event>): (r: Handler)
    requires Valid(h)
    ensures Valid(r)
    ensures |r.shown| == |h.shown| + |events|
    decreases |events|
  {
    if |events| == 0 then h
    else HandleAll(Handle(h, connection, events[0]), connection, events[1..])
  }

  /** The number of notifications not yet expired. */
  function LiveCount(shown: seq<Notification>): (n: nat)
    ensures n <= |shown|
  {
    if |shown| == 0 then 0
    else (if shown[|shown| - 1].expired then 0 else 1) + LiveCount(shown[..|shown| - 1])
  }

  lemma {:induction false} NoneLive(shown: seq<Notification>)
    requires forall i | 0 <= i < |shown| :: shown[i].expired
    ensures LiveCount(shown) == 0
    decreases |shown|
  {
    if |shown| > 0 {
      NoneLive(shown[..|shown| - 1]);
    }
  }

  /** Under the invariant, at most one notification is live. */
  lemma AtMostOneLive(h: Handler)
    requires OneLive(h)
    ensures LiveCount(h.shown) <= 1
  {
    if |h.shown| > 0 {
      NoneLive(h.shown[..|h.shown| - 1]);
    }
  }

  /**
   After a non-empty sequence of events from the start, exactly one
   notification is live, the one in the slot, and it shows the last event.
   */
  lemma {:induction false} HandleAllShowsLast(h: Handler, connection: ServerConnection, events: seq<Event>)
    requires OneLive(h) && |events| > 0
    ensures OneLive(HandleAll(h, connection, events))
    ensures HandleAll(h, connection, events).current == Some(|h.shown| + |events| - 1)
    ensures HandleAll(h, connection, events).shown[|h.shown| + |events| - 1] ==
      Notification(TitleOf(connection.name), MessageOf(events[|events| - 1]), Information, true, false)
    decreases |events|
  {
    var next := Handle(h, connection, events[0]);
    HandlePreservesOneLive(h, connection, events[0]);
    if |events| > 1 {
      HandleAllShowsLast(next, connection, events[1..]);
      assert events[1..][|events| - 2] == events[|events| - 1];
    }
  }
}
