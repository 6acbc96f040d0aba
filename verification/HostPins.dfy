/**
 Trust on first use of a Host's certificate (`host_client`): one pin per Host address on
 disk, and one cached client per address in memory. A certificate is known by its digest.
 */
module HostPins {
  import opened Wrappers

  type Byte = x: int | 0 <= x < 256
  type Digest = seq<Byte>

  const DIGEST_BYTES := 32

  // ----- pins in hexadecimal -----

  function HexDigit(n: nat): (c: char)
    requires n < 16
  {
    if n < 10 then '0' + n as char else 'a' + (n - 10) as char
  }

  function FromHexDigit(c: char): Option<nat> {
    if '0' <= c <= '9' then Some((c - '0') as nat)
    else if 'a' <= c <= 'f' then Some((c - 'a') as nat + 10)
    else if 'A' <= c <= 'F' then Some((c - 'A') as nat + 10)
    else None
  }

  function HexEncode(bytes: seq<Byte>): string {
    if bytes == [] then ""
    else [HexDigit(bytes[0] / 16), HexDigit(bytes[0] % 16)] + HexEncode(bytes[1..])
  }

  function HexDecode(s: string): Option<seq<Byte>> {
    if s == "" then Some([])
    else if |s| == 1 then None
    else
      match (FromHexDigit(s[0]), FromHexDigit(s[1]), HexDecode(s[2..]))
      case (Some(high), Some(low), Some(rest)) =>
        if high < 16 && low < 16 then Some([high * 16 + low] + rest) else None
      case _ => None
  }

  function DecodePin(pin: string): Option<Digest> {
    var bytes := HexDecode(pin);
    if bytes.Some? && |bytes.value| == DIGEST_BYTES then bytes else None
  }

  lemma {:induction false} HexRoundTrip(bytes: seq<Byte>)
    ensures HexDecode(HexEncode(bytes)) == Some(bytes)
  {
    if bytes != [] {
      HexRoundTrip(bytes[1..]);
      var s := HexEncode(bytes);
      assert s[2..] == HexEncode(bytes[1..]);
      assert FromHexDigit(s[0]) == Some(bytes[0] / 16);
      assert FromHexDigit(s[1]) == Some(bytes[0] % 16);
      assert bytes == [bytes[0]] + bytes[1..];
    }
  }

  // ----- clients -----

  /** `PinnedVerifier`: what it expects, the last certificate it saw, and any mismatch. */
  datatype Client = Client(expected: Option<Digest>, seen: Option<Digest>, mismatch: bool)

  /** `verify_server_cert` */
  function Verify(c: Client, presented: Digest): (Client, bool) {
    var c' := c.(seen := Some(presented));
    if c.expected.Some? && c.expected.value != presented then (c'.(mismatch := true), false)
    else (c', true)
  }

  /** The handshakes of one request, up to the first that is refused. */
  function Handshakes(c: Client, presented: seq<Digest>): (Client, bool)
    decreases |presented|
  {
    if presented == [] then (c, true)
    else
      var (c', accepted) := Verify(c, presented[0]);
      if accepted then Handshakes(c', presented[1..]) else (c', false)
  }

  // ----- the app -----

  type Origin = string

  /** The pin file, and this process's cached clients. */
  datatype App = App(pins: map<Origin, string>, cache: map<Origin, Client>)

  const FIRST_RUN := App(map[], map[])

  /**
   What the network and the system do to one request: the certificates presented, whether
   an answer comes back, and whether saving the pin, building its client and reading the
   answer's body succeed.
   */
  datatype Exchange = Exchange(presented: seq<Digest>, answered: bool, pinSaved: bool,
                               clientBuilt: bool, bodyRead: bool)

  datatype Reply = Response(cert: Digest) | IdentityChanged | Unavailable

  datatype Event =
    | Send(to: Origin, exchange: Exchange)
    | Forget(origin: Origin, pinSaved: bool)
    | Restart

  function ClientFor(app: App, key: Origin): Client {
    if key in app.cache then app.cache[key]
    else Client(if key in app.pins then DecodePin(app.pins[key]) else None, None, false)
  }

  /** An answer needs every handshake accepted, now or on a connection made earlier. */
  predicate Answered(x: Exchange, c: Client, accepted: bool) {
    x.answered && accepted && c.seen.Some?
  }

  function SendStep(app: App, key: Origin, x: Exchange): (App, Reply) {
    var (c, accepted) := Handshakes(ClientFor(app, key), x.presented);
    var contacted := app.(cache := app.cache[key := c]);
    if !Answered(x, c, accepted) then
      if c.mismatch then (app.(cache := app.cache - {key}), IdentityChanged) else (contacted, Unavailable)
    else
      var cert := c.seen.value;
      var reply := if x.bodyRead then Response(cert) else Unavailable;
      if c.expected.Some? then (contacted, reply)
      else if !x.pinSaved then (contacted, Unavailable)
      else
        var pinned := contacted.(pins := app.pins[key := HexEncode(cert)]);
        if !x.clientBuilt then (pinned, Unavailable)
        else (pinned.(cache := pinned.cache[key := Client(Some(cert), None, false)]), reply)
  }

  function ForgetStep(app: App, key: Origin, pinSaved: bool): App {
    var pins := if pinSaved then app.pins - {key} else app.pins;
    App(pins, app.cache - {key})
  }

  function Step(app: App, e: Event): (App, Option<Reply>) {
    match e
    case Send(to, exchange) =>
      var (app', reply) := SendStep(app, to, exchange);
      (app', Some(reply))
    case Forget(origin, pinSaved) => (ForgetStep(app, origin, pinSaved), None)
    case Restart => (app.(cache := map[]), None)
  }

  class HostClient {
    var pins: map<Origin, string>
    var clients: map<Origin, Client>

    constructor ()
      ensures State() == FIRST_RUN
    {
      pins, clients := map[], map[];
    }

    function State(): App
      reads this
    {
      App(pins, clients)
    }

    method ClientOf(key: Origin) returns (client: Client)
      modifies this
      ensures client == ClientFor(old(State()), key)
      ensures State() == old(State()).(cache := old(clients)[key := client])
    {
      if key in clients {
        assert clients == clients[key := clients[key]];
        return clients[key];
      }
      var expected := if key in pins then DecodePin(pins[key]) else None;
      client := Client(expected, None, false);
      clients := clients[key := client];
    }

    method SendRequest(key: Origin, x: Exchange) returns (reply: Reply)
      modifies this
      ensures (State(), reply) == SendStep(old(State()), key, x)
    {
      var pinned := ClientOf(key);
      ghost var original := old(clients);
      var i, accepted := 0, true;
      while i < |x.presented| && accepted
        invariant 0 <= i <= |x.presented|
        invariant Handshakes(ClientFor(old(State()), key), x.presented)
               == if accepted then Handshakes(pinned, x.presented[i..]) else (pinned, false)
      {
        var next := Verify(pinned, x.presented[i]);
        assert x.presented[i..][1..] == x.presented[i + 1..];
        pinned, accepted := next.0, next.1;
        i := i + 1;
      }
      clients := clients[key := pinned];
      assert clients == original[key := pinned];
      if !(x.answered && accepted && pinned.seen.Some?) {
        if pinned.mismatch {
          clients := clients - {key};
          assert clients == original - {key};
          return IdentityChanged;
        }
        return Unavailable;
      }
      var seen := pinned.seen.value;
      if pinned.expected.None? {
        if !x.pinSaved {
          return Unavailable;
        }
        pins := pins[key := HexEncode(seen)];
        if !x.clientBuilt {
          return Unavailable;
        }
        clients := clients[key := Client(Some(seen), None, false)];
      }
      return if x.bodyRead then Response(seen) else Unavailable;
    }

    method ForgetHost(key: Origin, pinSaved: bool)
      modifies this
      ensures State() == ForgetStep(old(State()), key, pinSaved)
    {
      clients := clients - {key};
      if key in pins && pinSaved {
        pins := pins - {key};
      }
      assert key !in pins ==> pins - {key} == pins;
    }
  }

  // ----- runs -----

  function AppAfter(app: App, events: seq<Event>): App
    decreases |events|
  {
    if events == [] then app else AppAfter(Step(app, events[0]).0, events[1..])
  }

  function Replies(app: App, events: seq<Event>): (replies: seq<Option<Reply>>)
    ensures |replies| == |events|
    decreases |events|
  {
    if events == [] then []
    else [Step(app, events[0]).1] + Replies(Step(app, events[0]).0, events[1..])
  }

  ghost predicate ValidExchange(x: Exchange) {
    forall i :: 0 <= i < |x.presented| ==> |x.presented[i]| == DIGEST_BYTES
  }

  ghost predicate ValidEvents(events: seq<Event>) {
    forall i :: 0 <= i < |events| && events[i].Send? ==> ValidExchange(events[i].exchange)
  }

  function PinAt(app: App, key: Origin): Option<string> {
    if key in app.pins then Some(app.pins[key]) else None
  }

  function ClientAt(app: App, key: Origin): Option<Client> {
    if key in app.cache then Some(app.cache[key]) else None
  }

  /** The pin can be read, and a cached client has no mismatch and agrees with the pin. */
  ghost predicate EntryConsistent(pin: Option<string>, client: Option<Client>) {
    && (pin.Some? ==> DecodePin(pin.value).Some?)
    && (client.Some? ==>
          && !client.value.mismatch
          && (client.value.seen.Some? ==> |client.value.seen.value| == DIGEST_BYTES)
          && (client.value.expected.Some? ==>
                && pin.Some? && DecodePin(pin.value) == client.value.expected
                && client.value.seen in {None, client.value.expected}))
  }

  ghost predicate Consistent(app: App) {
    forall k :: EntryConsistent(PinAt(app, k), ClientAt(app, k))
  }

  lemma {:induction false} HandshakesKeep(c: Client, presented: seq<Digest>)
    requires !c.mismatch && (c.seen.Some? ==> |c.seen.value| == DIGEST_BYTES)
    requires c.expected.Some? ==> c.seen in {None, c.expected}
    requires forall i :: 0 <= i < |presented| ==> |presented[i]| == DIGEST_BYTES
    ensures var (c', accepted) := Handshakes(c, presented);
      && c'.expected == c.expected && (c'.seen.Some? ==> |c'.seen.value| == DIGEST_BYTES)
      && (accepted <==> !c'.mismatch)
      && (accepted && c.expected.Some? ==> c'.seen in {None, c.expected})
      && (presented != [] ==> c'.seen.Some?)
    decreases |presented|
  {
    if presented != [] {
      var (c1, accepted) := Verify(c, presented[0]);
      if accepted {
        HandshakesKeep(c1, presented[1..]);
      }
    }
  }

  /** What is known to be trusted for an address: a certificate some response came under. */
  ghost predicate Trusts(app: App, key: Origin, cert: Digest) {
    && PinAt(app, key).Some? && DecodePin(PinAt(app, key).value) == Some(cert)
    && (ClientAt(app, key).Some? ==> ClientAt(app, key).value.expected == Some(cert))
  }

  /** A request touches nothing of any other address. */
  lemma SendElsewhere(app: App, key: Origin, x: Exchange, other: Origin)
    requires other != key
    ensures PinAt(SendStep(app, key, x).0, other) == PinAt(app, other)
    ensures ClientAt(SendStep(app, key, x).0, other) == ClientAt(app, other)
  {
  }

  lemma SendKeepsEntry(app: App, key: Origin, x: Exchange)
    requires EntryConsistent(PinAt(app, key), ClientAt(app, key)) && ValidExchange(x)
    ensures var app' := SendStep(app, key, x).0;
      EntryConsistent(PinAt(app', key), ClientAt(app', key))
  {
    var c0 := ClientFor(app, key);
    HandshakesKeep(c0, x.presented);
    var c := Handshakes(c0, x.presented).0;
    if c.seen.Some? {
      HexRoundTrip(c.seen.value);
    }
  }

  lemma SendKeepsTrust(app: App, key: Origin, x: Exchange)
    requires EntryConsistent(PinAt(app, key), ClientAt(app, key)) && ValidExchange(x)
    ensures var (app', reply) := SendStep(app, key, x);
      && (reply.Response? ==> Trusts(app', key, reply.cert))
      && (forall cert :: Trusts(app, key, cert) ==>
            Trusts(app', key, cert) && (reply.Response? ==> reply.cert == cert))
  {
    var c0 := ClientFor(app, key);
    HandshakesKeep(c0, x.presented);
    var c := Handshakes(c0, x.presented).0;
    if c.seen.Some? {
      HexRoundTrip(c.seen.value);
    }
  }

  lemma StepElsewhere(app: App, e: Event, other: Origin)
    requires (e.Send? ==> e.to != other) && (e.Forget? ==> e.origin != other)
    ensures PinAt(Step(app, e).0, other) == PinAt(app, other)
    ensures ClientAt(Step(app, e).0, other) in {None, ClientAt(app, other)}
  {
    if e.Send? {
      SendElsewhere(app, e.to, e.exchange, other);
    }
  }

  lemma StepKeepsConsistent(app: App, e: Event)
    requires Consistent(app) && (e.Send? ==> ValidExchange(e.exchange))
    ensures Consistent(Step(app, e).0)
  {
    var app' := Step(app, e).0;
    forall k ensures EntryConsistent(PinAt(app', k), ClientAt(app', k)) {
      assert EntryConsistent(PinAt(app, k), ClientAt(app, k));
      if e.Send? && e.to == k {
        SendKeepsEntry(app, k, e.exchange);
      } else if e.Forget? && e.origin == k {
      } else {
        StepElsewhere(app, e, k);
      }
    }
  }

  /** A send or a forget for one address leaves every other address's pin as it was. */
  lemma {:induction false} OtherPinsUntouched(app: App, e: Event, other: Origin)
    requires (e.Send? ==> e.to != other) && (e.Forget? ==> e.origin != other)
    ensures other in app.pins <==> other in Step(app, e).0.pins
    ensures other in app.pins ==> Step(app, e).0.pins[other] == app.pins[other]
  {
    StepElsewhere(app, e, other);
    assert PinAt(Step(app, e).0, other) == PinAt(app, other);
  }

  lemma StepKeepsTrust(app: App, e: Event, key: Origin, cert: Digest)
    requires Consistent(app) && Trusts(app, key, cert)
    requires (e.Send? ==> ValidExchange(e.exchange)) && (e.Forget? ==> e.origin != key)
    ensures Trusts(Step(app, e).0, key, cert)
    ensures e.Send? && e.to == key ==> RespondsUnder(Step(app, e).1, cert)
  {
    assert EntryConsistent(PinAt(app, key), ClientAt(app, key));
    if e.Send? && e.to == key {
      SendKeepsTrust(app, key, e.exchange);
    } else {
      StepElsewhere(app, e, key);
    }
  }

  /** If the reply is a response, it came under this certificate. */
  predicate RespondsUnder(reply: Option<Reply>, cert: Digest) {
    reply.Some? && reply.value.Response? ==> reply.value.cert == cert
  }

  ghost predicate NotForgotten(events: seq<Event>, key: Origin) {
    forall i :: 0 <= i < |events| && events[i].Forget? ==> events[i].origin != key
  }

  ghost predicate OnlyUnder(app: App, events: seq<Event>, key: Origin, cert: Digest) {
    forall i :: 0 <= i < |events| && events[i].Send? && events[i].to == key ==>
      RespondsUnder(Replies(app, events)[i], cert)
  }

  lemma {:induction false} TrustLasts(app: App, events: seq<Event>, key: Origin, cert: Digest)
    requires Consistent(app) && Trusts(app, key, cert)
    requires ValidEvents(events) && NotForgotten(events, key)
    ensures OnlyUnder(app, events, key, cert)
    decreases |events|
  {
    if events != [] {
      var app' := Step(app, events[0]).0;
      StepKeepsConsistent(app, events[0]);
      StepKeepsTrust(app, events[0], key, cert);
      TrustLasts(app', events[1..], key, cert);
      forall i | 1 <= i < |events| ensures Replies(app, events)[i] == Replies(app', events[1..])[i - 1]
        && events[i] == events[1..][i - 1] {
      }
    }
  }

  lemma {:induction false} RunKeepsConsistent(app: App, events: seq<Event>)
    requires Consistent(app) && ValidEvents(events)
    ensures Consistent(AppAfter(app, events))
    decreases |events|
  {
    if events != [] {
      StepKeepsConsistent(app, events[0]);
      RunKeepsConsistent(Step(app, events[0]).0, events[1..]);
    }
  }

  /**
   Take any run from the first start of the app, a send whose response came under a
   certificate, and then any sends, forgets of other addresses and restarts. Every later
   response from that address comes under that certificate.
   */
  lemma SameCertificateUntilForgotten(before: seq<Event>, key: Origin, x: Exchange, after: seq<Event>)
    requires ValidEvents(before) && ValidExchange(x) && ValidEvents(after) && NotForgotten(after, key)
    ensures var app := AppAfter(FIRST_RUN, before);
      var (app', reply) := SendStep(app, key, x);
      reply.Response? ==> OnlyUnder(app', after, key, reply.cert)
  {
    var app := AppAfter(FIRST_RUN, before);
    var (app', reply) := SendStep(app, key, x);
    RunKeepsConsistent(FIRST_RUN, before);
    assert EntryConsistent(PinAt(app, key), ClientAt(app, key));
    SendKeepsTrust(app, key, x);
    StepKeepsConsistent(app, Send(key, x));
    if reply.Response? {
      TrustLasts(app', after, key, reply.cert);
    }
  }

  /** A Host that presents another certificate is refused, and the pin stays. */
  lemma {:induction false} StrangerIsRefused(app: App, key: Origin, cert: Digest, x: Exchange)
    requires Consistent(app) && Trusts(app, key, cert) && ValidExchange(x)
    requires x.presented != [] && x.presented[0] != cert
    ensures var (app', reply) := SendStep(app, key, x);
      reply == IdentityChanged && app'.pins == app.pins && Trusts(app', key, cert)
  {
    assert EntryConsistent(PinAt(app, key), ClientAt(app, key));
    assert ClientFor(app, key).expected == Some(cert);
  }

  // ----- what a request is answered -----

  /** Every certificate presented is the one expected, if one is. */
  ghost predicate AllExpected(expected: Option<Digest>, presented: seq<Digest>) {
    expected.Some? ==> forall i :: 0 <= i < |presented| ==> presented[i] == expected.value
  }

  lemma {:induction false} HandshakesAccept(c: Client, presented: seq<Digest>)
    requires !c.mismatch
    ensures var (c', accepted) := Handshakes(c, presented);
      && (accepted <==> AllExpected(c.expected, presented)) && (accepted <==> !c'.mismatch)
      && c'.expected == c.expected
      && (accepted ==> c'.seen == if presented == [] then c.seen else Some(presented[|presented| - 1]))
    decreases |presented|
  {
    if presented != [] {
      var (c1, accepted) := Verify(c, presented[0]);
      assert AllExpected(c.expected, presented) <==> accepted && AllExpected(c.expected, presented[1..]) by {
        assert forall i :: 0 <= i < |presented[1..]| ==> presented[1..][i] == presented[i + 1];
        if c.expected.Some? && accepted && AllExpected(c.expected, presented[1..]) {
          forall i | 0 <= i < |presented| ensures presented[i] == c.expected.value {
            assert i > 0 ==> presented[1..][i - 1] == presented[i];
          }
        }
      }
      if accepted {
        HandshakesAccept(c1, presented[1..]);
      }
    }
  }

  /**
   What comes of a request: an identity error exactly when a certificate is not the pinned
   one, and a response, under the certificate presented last, exactly when there is none of
   that, the Host answers in full, and on first contact the pin is stored and taken up.
   */
  lemma WhatIsAnswered(app: App, key: Origin, x: Exchange)
    requires Consistent(app)
    ensures var c, reply := ClientFor(app, key), SendStep(app, key, x).1;
      && (reply == IdentityChanged <==> !AllExpected(c.expected, x.presented))
      && (reply.Response? <==>
            && AllExpected(c.expected, x.presented) && (x.presented != [] || c.seen.Some?)
            && x.answered && x.bodyRead && (c.expected.Some? || (x.pinSaved && x.clientBuilt)))
      && (reply.Response? ==>
            reply.cert == if x.presented == [] then c.seen.value else x.presented[|x.presented| - 1])
  {
    assert EntryConsistent(PinAt(app, key), ClientAt(app, key));
    HandshakesAccept(ClientFor(app, key), x.presented);
  }

  /** After a Host has been forgotten, the certificate it answers under next is trusted anew. */
  lemma TrustedAnewWhenForgotten(app: App, key: Origin, x: Exchange)
    requires Consistent(app) && ValidExchange(x) && x.presented != []
    requires x.answered && x.bodyRead && x.pinSaved && x.clientBuilt
    ensures var forgotten := Step(app, Forget(key, true)).0;
      var (app', reply) := SendStep(forgotten, key, x);
      var cert := x.presented[|x.presented| - 1];
      && PinAt(forgotten, key).None? && ClientAt(forgotten, key).None?
      && reply == Response(cert) && Trusts(app', key, cert)
  {
    var forgotten := Step(app, Forget(key, true)).0;
    assert EntryConsistent(PinAt(forgotten, key), ClientAt(forgotten, key));
    HandshakesAccept(ClientFor(forgotten, key), x.presented);
    SendKeepsTrust(forgotten, key, x);
  }

  // ----- unpinned clients -----

  ghost predicate NotUnpinnedWithPin(app: App, key: Origin) {
    ClientAt(app, key).Some? && ClientAt(app, key).value.expected.None? ==> PinAt(app, key).None?
  }

  /** A cached client that expects nothing belongs to an address without a stored pin. */
  ghost predicate UnpinnedHaveNoPin(app: App) {
    forall k :: NotUnpinnedWithPin(app, k)
  }

  /** The pin was saved, and then the client that expects it could not be built. */
  ghost predicate LeftUnpinned(app: App, key: Origin, x: Exchange) {
    var (c, accepted) := Handshakes(ClientFor(app, key), x.presented);
    Answered(x, c, accepted) && c.expected.None? && x.pinSaved && !x.clientBuilt
  }

  lemma UnpinnedEntryIff(app: App, key: Origin, x: Exchange)
    requires EntryConsistent(PinAt(app, key), ClientAt(app, key)) && ValidExchange(x)
    requires NotUnpinnedWithPin(app, key)
    ensures NotUnpinnedWithPin(SendStep(app, key, x).0, key) <==> !LeftUnpinned(app, key, x)
  {
    HandshakesKeep(ClientFor(app, key), x.presented);
  }

  /** Exactly one failure breaks that rule: the one above. */
  lemma UnpinnedHaveNoPinIff(app: App, key: Origin, x: Exchange)
    requires Consistent(app) && UnpinnedHaveNoPin(app) && ValidExchange(x)
    ensures UnpinnedHaveNoPin(SendStep(app, key, x).0) <==> !LeftUnpinned(app, key, x)
  {
    var app' := SendStep(app, key, x).0;
    assert EntryConsistent(PinAt(app, key), ClientAt(app, key)) && NotUnpinnedWithPin(app, key);
    UnpinnedEntryIff(app, key, x);
    forall k | k != key ensures NotUnpinnedWithPin(app', k) {
      SendElsewhere(app, key, x, k);
      assert NotUnpinnedWithPin(app, k);
    }
  }

  /** That failure on first contact: the pin is stored, and the cached client expects nothing. */
  lemma PinSavedClientNotBuilt(key: Origin, cert: Digest)
    requires |cert| == DIGEST_BYTES
    ensures var x := Exchange([cert], true, true, false, true);
      LeftUnpinned(FIRST_RUN, key, x) && !UnpinnedHaveNoPin(SendStep(FIRST_RUN, key, x).0)
  {
    var x := Exchange([cert], true, true, false, true);
    assert Handshakes(ClientFor(FIRST_RUN, key), [cert]) == (Client(None, Some(cert), false), true) by {
      assert [cert][1..] == [];
    }
    assert forall k :: NotUnpinnedWithPin(FIRST_RUN, k) && EntryConsistent(PinAt(FIRST_RUN, k), ClientAt(FIRST_RUN, k));
    UnpinnedHaveNoPinIff(FIRST_RUN, key, x);
  }

  /** In every run whose clients can all be built, no cached unpinned client has a stored pin. */
  lemma {:induction false} UnpinnedHaveNoPinInRuns(app: App, events: seq<Event>)
    requires Consistent(app) && UnpinnedHaveNoPin(app) && ValidEvents(events)
    requires forall i :: 0 <= i < |events| && events[i].Send? ==> events[i].exchange.clientBuilt
    ensures UnpinnedHaveNoPin(AppAfter(app, events))
    decreases |events|
  {
    if events != [] {
      var e, app' := events[0], Step(app, events[0]).0;
      StepKeepsConsistent(app, e);
      if e.Send? {
        UnpinnedHaveNoPinIff(app, e.to, e.exchange);
      } else {
        forall k ensures NotUnpinnedWithPin(app', k) {
          assert NotUnpinnedWithPin(app, k);
        }
      }
      UnpinnedHaveNoPinInRuns(app', events[1..]);
    }
  }
}
