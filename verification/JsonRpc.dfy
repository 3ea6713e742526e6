/** The JSON-RPC client: requests and responses matched by id (sections 4 and 5 of the JSON-RPC 2.0 Specification). */
module JsonRpc {
  import opened Optional

  const TWO_64 := 0x1_0000_0000_0000_0000

  /** An incoming message: the method if there is a string one, the id if there is an unsigned 64-bit one. */
  datatype Message = Message(method_: Option<string>, id: Option<nat>, body: string)

  /** What became of the requester that waits for a response. */
  datatype Outcome = Waiting | Done(response: Message) | Gone

  /** Requesters are numbered as they come. */
  datatype Client = Client(messageId: nat, pending: map<nat, nat>, outcomes: seq<Outcome>)

  datatype Event =
    | Request(written: bool)
    | Incoming(message: Message)
    | Abandoned(requester: nat)

  function Initial(): Client { Client(1, map[], []) }

  /** The receiving end of a requester is dropped; nothing happens to one that is through. */
  function Drop(outcomes: seq<Outcome>, w: nat): seq<Outcome> {
    if w < |outcomes| && outcomes[w] == Waiting then outcomes[w := Gone] else outcomes
  }

  /** send_request up to the wait. The entry is made before the write, and stays when the write fails. */
  function SendRequest(c: Client, written: bool): Client {
    var id := (c.messageId + 1) % TWO_64;
    var w := |c.outcomes|;
    var kept := if id in c.pending then Drop(c.outcomes, c.pending[id]) else c.outcomes;
    Client(id, c.pending[id := w], kept + [if written then Waiting else Gone])
  }

  /** The reader task on one text message. */
  function OnMessage(c: Client, m: Message): Client {
    if m.method_ != None || m.id == None || m.id.value !in c.pending then c
    else
      var w := c.pending[m.id.value];
      c.(pending := c.pending - {m.id.value},
         outcomes := if w < |c.outcomes| && c.outcomes[w] == Waiting then c.outcomes[w := Done(m)] else c.outcomes)
  }

  function Step(c: Client, e: Event): Client {
    match e
    case Request(written) => SendRequest(c, written)
    case Incoming(m) => OnMessage(c, m)
    case Abandoned(w) => c.(outcomes := Drop(c.outcomes, w))
  }

  function Run(es: seq<Event>): Client {
    if es == [] then Initial() else Step(Run(es[..|es| - 1]), es[|es| - 1])
  }

  // ---------- What is promised to each requester by itself ----------

  function Requests(es: seq<Event>): nat {
    if es == [] then 0 else Requests(es[..|es| - 1]) + if es[|es| - 1].Request? then 1 else 0
  }

  /** The id of requester w. */
  function IdOf(w: nat): nat { w + 2 }

  predicate Answers(m: Message, w: nat) { m.method_ == None && m.id == Some(IdOf(w)) }

  /**
   * Requester w on its own: it waits from its request on, unless the write failed, until it is abandoned or the first
   * message arrives that is no call and has its id. None before the request.
   */
  function Promised(es: seq<Event>, w: nat): Option<Outcome> {
    if es == [] then None
    else
      var before := Promised(es[..|es| - 1], w);
      match es[|es| - 1]
      case Request(written) =>
        if before == None && Requests(es[..|es| - 1]) == w then Some(if written then Waiting else Gone) else before
      case Incoming(m) => if before == Some(Waiting) && Answers(m, w) then Some(Done(m)) else before
      case Abandoned(v) => if before == Some(Waiting) && v == w then Some(Gone) else before
  }

  /** Requester w has sent its request and no message with its id has come since. */
  predicate Unanswered(es: seq<Event>, w: nat) {
    es != [] &&
    match es[|es| - 1]
    case Request(_) => Unanswered(es[..|es| - 1], w) || Requests(es[..|es| - 1]) == w
    case Incoming(m) => Unanswered(es[..|es| - 1], w) && !Answers(m, w)
    case Abandoned(_) => Unanswered(es[..|es| - 1], w)
  }

  // ---------- The client keeps every promise ----------

  /** The counter has issued the ids 2 to n+1, and every entry of the map is some requester's under its own id. */
  predicate Numbered(c: Client, n: nat) {
    && c.messageId == n + 1 && |c.outcomes| == n
    && forall id :: id in c.pending ==> 2 <= id < n + 2 && c.pending[id] == id - 2
  }

  lemma {:induction false} RunNumbered(es: seq<Event>)
    requires Requests(es) < TWO_64 - 2
    ensures Numbered(Run(es), Requests(es))
  {
    if es != [] {
      RunNumbered(es[..|es| - 1]);
    }
  }

  /** One requester: it is in the map exactly while unanswered, and its outcome is the promised one. */
  predicate Kept(c: Client, es: seq<Event>, w: nat) {
    && (IdOf(w) in c.pending <==> Unanswered(es, w))
    && (Unanswered(es, w) ==> w < |c.outcomes|)
    && Promised(es, w) == (if w < |c.outcomes| then Some(c.outcomes[w]) else None)
    && (w < |c.outcomes| && c.outcomes[w] == Waiting ==> Unanswered(es, w))
  }

  /**
   * In every run short of 2^64 requests: an id is pending exactly while it is issued and unanswered, and every
   * requester gets exactly what the run promises it, as if it were alone on the connection.
   */
  lemma {:induction false} RunKept(es: seq<Event>, w: nat)
    requires Requests(es) < TWO_64 - 2
    ensures Kept(Run(es), es, w)
  {
    if es != [] {
      var before := es[..|es| - 1];
      RunKept(before, w);
      RunNumbered(before);
      match es[|es| - 1] case Request(_) => case Incoming(_) => case Abandoned(_) =>
    }
  }

  /** The keys of the map, as a set. */
  lemma PendingExact(es: seq<Event>, id: nat)
    requires Requests(es) < TWO_64 - 2
    ensures id in Run(es).pending <==> id >= 2 && Unanswered(es, id - 2)
  {
    RunNumbered(es);
    if id >= 2 { RunKept(es, id - 2); }
  }

  // ---------- What the promise means ----------

  /** Message i of the run comes after the request of w and is its first answer. */
  predicate FirstAnswer(es: seq<Event>, w: nat, i: int) {
    && 0 <= i < |es| && es[i].Incoming? && Answers(es[i].message, w) && Requests(es[..i]) > w
    && forall j :: 0 <= j < i && es[j].Incoming? && Requests(es[..j]) > w ==> !Answers(es[j].message, w)
  }

  lemma {:induction false} RequestsGrow(es: seq<Event>, i: nat)
    requires i <= |es|
    ensures Requests(es[..i]) <= Requests(es)
  {
    if i < |es| {
      RequestsGrow(es[..|es| - 1], i);
      assert es[..|es| - 1][..i] == es[..i];
    } else {
      assert es[..i] == es;
    }
  }

  lemma {:induction false} UnansweredMeans(es: seq<Event>, w: nat)
    ensures Unanswered(es, w) ==>
      Requests(es) > w
      && forall j :: 0 <= j < |es| && es[j].Incoming? && Requests(es[..j]) > w ==> !Answers(es[j].message, w)
  {
    if es != [] && Unanswered(es, w) {
      var n := |es| - 1;
      UnansweredMeans(es[..n], w);
      forall j | 0 <= j < |es| && es[j].Incoming? && Requests(es[..j]) > w ensures !Answers(es[j].message, w) {
        RequestsGrow(es[..n], if j < n then j else n);
        if j < n { assert es[..n][..j] == es[..j] && es[..n][j] == es[j]; }
      }
    }
  }

  lemma {:induction false} PromiseIsFirstAnswer(es: seq<Event>, w: nat)
    requires Requests(es) < TWO_64 - 2 && Promised(es, w) != None && Promised(es, w).value.Done?
    ensures exists i :: FirstAnswer(es, w, i) && es[i].message == Promised(es, w).value.response
  {
    var n := |es| - 1;
    var before := es[..n];
    assert forall j :: 0 <= j < n ==> before[j] == es[j] && before[..j] == es[..j];
    if Promised(before, w) == Promised(es, w) {
      PromiseIsFirstAnswer(before, w);
      var i :| FirstAnswer(before, w, i) && before[i].message == Promised(es, w).value.response;
      hide Promised, Requests, Answers;
      assert FirstAnswer(es, w, i);
    } else {
      WaitingIsUnanswered(before, w);
      UnansweredMeans(before, w);
      hide Unanswered, Requests;
      assert FirstAnswer(es, w, n);
    }
  }

  lemma WaitingIsUnanswered(es: seq<Event>, w: nat)
    requires Requests(es) < TWO_64 - 2 && Promised(es, w) == Some(Waiting)
    ensures Unanswered(es, w)
  {
    RunKept(es, w);
  }

  /** A completed requester holds the first message with its id that is no call and came after its request. */
  lemma DoneExact(es: seq<Event>, w: nat)
    requires Requests(es) < TWO_64 - 2 && w < |Run(es).outcomes| && Run(es).outcomes[w].Done?
    ensures exists i :: FirstAnswer(es, w, i) && es[i].message == Run(es).outcomes[w].response
  {
    RunKept(es, w);
    hide Run, Unanswered, FirstAnswer, Promised;
    PromiseIsFirstAnswer(es, w);
  }

  /** A requester that is through stays as it is, whatever follows. */
  lemma {:induction false} OutcomesFinal(es: seq<Event>, more: seq<Event>, w: nat)
    requires w < |Run(es).outcomes| && Run(es).outcomes[w] != Waiting
    ensures w < |Run(es + more).outcomes| && Run(es + more).outcomes[w] == Run(es).outcomes[w]
  {
    if more == [] {
      assert es + more == es;
    } else {
      var n := |more| - 1;
      OutcomesFinal(es, more[..n], w);
      assert (es + more)[..|es + more| - 1] == es + more[..n];
    }
  }

  /** An incoming call changes nothing, even when its id is pending. */
  lemma CallsCompleteNobody(es: seq<Event>, m: Message)
    requires m.method_ != None
    ensures Run(es + [Incoming(m)]) == Run(es)
  {
    assert (es + [Incoming(m)])[..|es|] == es;
  }

  // ---------- The client ----------

  class ProtocolTranslator {
    var messageId: nat
    var pendingRequests: map<nat, nat>
    var outcomes: seq<Outcome>

    ghost function View(): Client
      reads this
    {
      Client(messageId, pendingRequests, outcomes)
    }

    constructor ()
      ensures View() == Initial()
    {
      messageId, pendingRequests, outcomes := 1, map[], [];
    }

    /** The receiving end of requester w is dropped. */
    method DropReceiver(w: nat)
      modifies this`outcomes
      ensures outcomes == Drop(old(outcomes), w)
    {
      if w < |outcomes| && outcomes[w] == Waiting {
        outcomes := outcomes[w := Gone];
      }
    }

    /** send_request, up to the wait for the response. */
    method Send(written: bool) returns (id: nat)
      modifies this
      ensures View() == SendRequest(old(View()), written)
      ensures id == messageId
    {
      messageId := (messageId + 1) % TWO_64;
      id := messageId;
      var w := |outcomes|;
      if id in pendingRequests {
        DropReceiver(pendingRequests[id]);
      }
      outcomes := outcomes + [Waiting];
      pendingRequests := pendingRequests[id := w];
      if !written {
        DropReceiver(w);
      }
    }

    /** The body of the reader task. */
    method Receive(m: Message)
      modifies this
      ensures View() == OnMessage(old(View()), m)
    {
      if m.method_ != None { return; }
      if m.id == None { return; }
      if m.id.value in pendingRequests {
        var w := pendingRequests[m.id.value];
        pendingRequests := pendingRequests - {m.id.value};
        if w < |outcomes| && outcomes[w] == Waiting {
          outcomes := outcomes[w := Done(m)];
        }
      }
    }

    method RunEvents(es: seq<Event>)
      requires View() == Initial() && Requests(es) < TWO_64 - 2
      modifies this
      ensures View() == Run(es)
      ensures forall w: nat :: w < |outcomes| ==> Promised(es, w) == Some(outcomes[w])
    {
      for i := 0 to |es|
        invariant View() == Run(es[..i])
      {
        assert es[..i + 1][..i] == es[..i];
        match es[i]
        case Request(written) => var id := Send(written);
        case Incoming(m) => Receive(m);
        case Abandoned(w) => DropReceiver(w);
      }
      assert es[..|es|] == es;
      forall w: nat | w < |outcomes| ensures Promised(es, w) == Some(outcomes[w]) {
        RunKept(es, w);
      }
    }
  }
}
