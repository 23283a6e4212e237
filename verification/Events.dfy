/** The three telemetry event types and the keys they are deduplicated by. */
module Events {
  import opened Wrappers

  /** Gameplay and performance payloads: the two request fields a key is built from. */
  datatype TimedRequest = TimedRequest(eventId: string, timestamp: string)

  /** A user behaviour payload, whose context object may be absent. */
  datatype BehaviorRequest = BehaviorRequest(eventId: string, sessionId: Option<string>)

  /** An event with its server-side enrichment. A nil payload pointer is `None`. */
  datatype Event =
    | Gameplay(namespace: string, userId: string, serverTimestamp: int, sourceIp: string,
               timed: Option<TimedRequest>)
    | Performance(namespace: string, userId: string, serverTimestamp: int, sourceIp: string,
                  timed: Option<TimedRequest>)
    | UserBehavior(namespace: string, userId: string, serverTimestamp: int, sourceIp: string,
                   behavior: Option<BehaviorRequest>)
  {
    function DeduplicationKey(): string {
      match this
      case Gameplay(_, _, _, _, timed) =>
        var eventId := if timed.Some? then timed.value.eventId else "";
        var timestamp := if timed.Some? then timed.value.timestamp else "";
        "gameplay:" + namespace + ":" + userId + ":" + eventId + ":" + timestamp
      case Performance(_, _, _, _, timed) =>
        var eventId := if timed.Some? then timed.value.eventId else "";
        var timestamp := if timed.Some? then timed.value.timestamp else "";
        "performance:" + namespace + ":" + userId + ":" + eventId + ":" + timestamp
      case UserBehavior(_, _, _, _, behavior) =>
        var sessionId :=
          if behavior.Some? && behavior.value.sessionId.Some? then behavior.value.sessionId.value else "";
        var eventId := if behavior.Some? then behavior.value.eventId else "";
        "user_behavior:" + namespace + ":" + userId + ":" + eventId + ":" + sessionId
    }

    /** What the key is meant to identify. The last field is the timestamp or the session id. */
    function Identity(): Identity {
      match this
      case Gameplay(_, _, _, _, None) => Id(KGameplay, namespace, userId, "", "")
      case Gameplay(_, _, _, _, Some(r)) => Id(KGameplay, namespace, userId, r.eventId, r.timestamp)
      case Performance(_, _, _, _, None) => Id(KPerformance, namespace, userId, "", "")
      case Performance(_, _, _, _, Some(r)) => Id(KPerformance, namespace, userId, r.eventId, r.timestamp)
      case UserBehavior(_, _, _, _, None) => Id(KUserBehavior, namespace, userId, "", "")
      case UserBehavior(_, _, _, _, Some(r)) =>
        Id(KUserBehavior, namespace, userId, r.eventId, match r.sessionId case None => "" case Some(s) => s)
    }
  }

  datatype Kind = KGameplay | KPerformance | KUserBehavior {
    function Name(): string {
      match this
      case KGameplay => "gameplay"
      case KPerformance => "performance"
      case KUserBehavior => "user_behavior"
    }
  }

  datatype Identity = Id(kind: Kind, namespace: string, userId: string, eventId: string, last: string) {
    function Key(): string {
      kind.Name() + ":" + Rest()
    }

    function Rest(): string {
      namespace + ":" + (userId + ":" + (eventId + ":" + last))
    }

    /** The guard a caller can check: no separator inside the first three fields. */
    predicate Separable() {
      ':' !in namespace && ':' !in userId && ':' !in eventId
    }

    predicate ColonFree() {
      Separable() && ':' !in last
    }
  }

  function Colons(s: string): nat {
    if s == "" then 0 else Colons(s[..|s| - 1]) + if s[|s| - 1] == ':' then 1 else 0
  }

  lemma {:induction false} ColonsConcat(a: string, b: string)
    ensures Colons(a + b) == Colons(a) + Colons(b)
  {
    if b == "" {
      assert a + b == a;
    } else {
      ColonsConcat(a, b[..|b| - 1]);
      assert (a + b)[..|a + b| - 1] == a + b[..|b| - 1];
    }
  }

  lemma {:induction false} ColonsZero(s: string)
    ensures Colons(s) == 0 <==> ':' !in s
  {
    if s != "" {
      ColonsZero(s[..|s| - 1]);
      assert s == s[..|s| - 1] + [s[|s| - 1]];
    }
  }

  /** Two strings split at their first separator agree on both sides of it. */
  lemma FirstColon(a: string, x: string, b: string, y: string)
    requires ':' !in a && ':' !in b
    requires a + ":" + x == b + ":" + y
    ensures a == b && x == y
  {
    var s := a + ":" + x;
    assert s[|a|] == ':' && s[|b|] == ':';
    assert |a| == |b|;
    assert a == s[..|a|] && b == s[..|b|];
    assert x == s[|a| + 1..] && y == s[|b| + 1..];
  }

  lemma Reassociate(p: string, q: string, x: string)
    ensures (p + ":" + q) + ":" + x == p + ":" + (q + ":" + x)
  {
  }

  lemma FormatFields(kind: string, id: Identity)
    ensures (kind + ":") + id.namespace + ":" + id.userId + ":" + id.eventId + ":" + id.last
         == kind + ":" + id.Rest()
  {
    Reassociate(kind + ":" + id.namespace + ":" + id.userId, id.eventId, id.last);
    Reassociate(kind + ":" + id.namespace, id.userId, id.eventId + ":" + id.last);
    Reassociate(kind, id.namespace, id.userId + ":" + (id.eventId + ":" + id.last));
  }

  /** The formatted key is the key of the event's identity. */
  lemma KeyOfIdentity(e: Event)
    ensures e.DeduplicationKey() == e.Identity().Key()
  {
    var id := e.Identity();
    FormatFields(id.kind.Name(), id);
    match id.kind
    case KGameplay => assert "gameplay" + ":" == "gameplay:";
    case KPerformance => assert "performance" + ":" == "performance:";
    case KUserBehavior => assert "user_behavior" + ":" == "user_behavior:";
  }

  lemma KindNamesAreColonFree(k: Kind)
    ensures ':' !in k.Name()
  {
  }

  lemma KindNamesDiffer(k: Kind, l: Kind)
    requires k.Name() == l.Name()
    ensures k == l
  {
    assert |k.Name()| == |l.Name()|;
  }

  /** Keys of different kinds never coincide, whatever the fields hold. */
  lemma KindsNeverCollide(e: Event, f: Event)
    requires e.DeduplicationKey() == f.DeduplicationKey()
    ensures e.Gameplay? == f.Gameplay? && e.Performance? == f.Performance? && e.UserBehavior? == f.UserBehavior?
  {
    KeyOfIdentity(e);
    KeyOfIdentity(f);
    var a, b := e.Identity(), f.Identity();
    KindNamesAreColonFree(a.kind);
    KindNamesAreColonFree(b.kind);
    FirstColon(a.kind.Name(), a.Rest(), b.kind.Name(), b.Rest());
    KindNamesDiffer(a.kind, b.kind);
  }

  lemma SeparableIdentitiesInjective(a: Identity, b: Identity)
    requires a.Separable() && b.Separable()
    requires a.Key() == b.Key()
    ensures a == b
  {
    KindNamesAreColonFree(a.kind);
    KindNamesAreColonFree(b.kind);
    FirstColon(a.kind.Name(), a.Rest(), b.kind.Name(), b.Rest());
    KindNamesDiffer(a.kind, b.kind);
    assert a.Rest() == a.namespace + ":" + (a.userId + ":" + (a.eventId + ":" + a.last));
    FirstColon(a.namespace, a.userId + ":" + (a.eventId + ":" + a.last),
               b.namespace, b.userId + ":" + (b.eventId + ":" + b.last));
    FirstColon(a.userId, a.eventId + ":" + a.last, b.userId, b.eventId + ":" + b.last);
    FirstColon(a.eventId, a.last, b.eventId, b.last);
  }

  /** Events whose first three fields hold no separator share a key exactly when
      they share kind, namespace, user, event id and last field. */
  lemma KeysAreInjectiveOnIdentity(e: Event, f: Event)
    requires e.Identity().Separable() && f.Identity().Separable()
    ensures e.DeduplicationKey() == f.DeduplicationKey() <==> e.Identity() == f.Identity()
  {
    KeyOfIdentity(e);
    KeyOfIdentity(f);
    if e.DeduplicationKey() == f.DeduplicationKey() {
      SeparableIdentitiesInjective(e.Identity(), f.Identity());
    }
  }

  // ----- the same on the fields of the events themselves

  function OrEmpty(s: Option<string>): string {
    if s.None? then "" else s.value
  }

  /** Two timed payloads agree on event id and timestamp, an absent payload counting as empty. */
  predicate SameTimed(t: Option<TimedRequest>, u: Option<TimedRequest>) {
    match (t, u)
    case (None, None) => true
    case (Some(x), None) => x.eventId == "" && x.timestamp == ""
    case (None, Some(y)) => y.eventId == "" && y.timestamp == ""
    case (Some(x), Some(y)) => x.eventId == y.eventId && x.timestamp == y.timestamp
  }

  /** Two behaviour payloads agree on event id and session, an absent payload or context counting as
      empty. */
  predicate SameBehavior(b: Option<BehaviorRequest>, c: Option<BehaviorRequest>) {
    match (b, c)
    case (None, None) => true
    case (Some(x), None) => x.eventId == "" && OrEmpty(x.sessionId) == ""
    case (None, Some(y)) => y.eventId == "" && OrEmpty(y.sessionId) == ""
    case (Some(x), Some(y)) => x.eventId == y.eventId && OrEmpty(x.sessionId) == OrEmpty(y.sessionId)
  }

  /** The two events are of one kind and agree on the fields that identify an event of it. */
  predicate SameFields(e: Event, f: Event) {
    && e.namespace == f.namespace && e.userId == f.userId
    && (|| (e.Gameplay? && f.Gameplay? && SameTimed(e.timed, f.timed))
        || (e.Performance? && f.Performance? && SameTimed(e.timed, f.timed))
        || (e.UserBehavior? && f.UserBehavior? && SameBehavior(e.behavior, f.behavior)))
  }

  /** No separator in namespace, user id and event id. */
  predicate Unambiguous(e: Event) {
    && ':' !in e.namespace && ':' !in e.userId
    && (!e.UserBehavior? && e.timed.Some? ==> ':' !in e.timed.value.eventId)
    && (e.UserBehavior? && e.behavior.Some? ==> ':' !in e.behavior.value.eventId)
  }

  lemma FieldsAreIdentity(e: Event, f: Event)
    ensures e.Identity() == f.Identity() <==> SameFields(e, f)
    ensures Unambiguous(e) <==> e.Identity().Separable()
  {
  }

  /** Two events of any kinds whose first three fields hold no separator share a key if and only if
      they are of one kind and agree on namespace, user id, event id, and timestamp or session id. */
  lemma KeysAgreeExactlyOnFields(e: Event, f: Event)
    requires Unambiguous(e) && Unambiguous(f)
    ensures e.DeduplicationKey() == f.DeduplicationKey() <==> SameFields(e, f)
  {
    FieldsAreIdentity(e, f);
    FieldsAreIdentity(f, e);
    KeysAreInjectiveOnIdentity(e, f);
  }

  /** The same for two user behaviour events that have their payloads and contexts, spelled out. */
  lemma SessionsSeparateKeys(e: Event, f: Event, x: BehaviorRequest, y: BehaviorRequest, s: string, t: string)
    requires e.UserBehavior? && e.behavior == Some(x) && x.sessionId == Some(s)
    requires f.UserBehavior? && f.behavior == Some(y) && y.sessionId == Some(t)
    requires Unambiguous(e) && Unambiguous(f)
    ensures e.DeduplicationKey() == f.DeduplicationKey()
       <==> e.namespace == f.namespace && e.userId == f.userId && x.eventId == y.eventId && s == t
  {
    KeysAgreeExactlyOnFields(e, f);
  }

  /** The same for two gameplay or two performance events that have their payloads. */
  lemma TimestampsSeparateKeys(e: Event, f: Event, x: TimedRequest, y: TimedRequest)
    requires (e.Gameplay? && f.Gameplay?) || (e.Performance? && f.Performance?)
    requires e.timed == Some(x) && f.timed == Some(y)
    requires Unambiguous(e) && Unambiguous(f)
    ensures e.DeduplicationKey() == f.DeduplicationKey()
       <==> e.namespace == f.namespace && e.userId == f.userId
            && x.eventId == y.eventId && x.timestamp == y.timestamp
  {
    KeysAgreeExactlyOnFields(e, f);
  }

  predicate CarriesTimed(t: Option<TimedRequest>, eventId: string, timestamp: string) {
    match t
    case None => eventId == "" && timestamp == ""
    case Some(x) => eventId == x.eventId && timestamp == x.timestamp
  }

  predicate CarriesBehavior(b: Option<BehaviorRequest>, eventId: string, sessionId: string) {
    match b
    case None => eventId == "" && sessionId == ""
    case Some(x) => eventId == x.eventId && sessionId == OrEmpty(x.sessionId)
  }

  /** The parts of the key of an event, in their order. */
  predicate KeyParts(e: Event, kind: string, namespace: string, userId: string, eventId: string, last: string) {
    && namespace == e.namespace && userId == e.userId
    && match e
       case Gameplay(_, _, _, _, t) => kind == "gameplay" && CarriesTimed(t, eventId, last)
       case Performance(_, _, _, _, t) => kind == "performance" && CarriesTimed(t, eventId, last)
       case UserBehavior(_, _, _, _, b) => kind == "user_behavior" && CarriesBehavior(b, eventId, last)
  }

  /** A key reads back: cut at its first four separators it gives the kind, the namespace, the user
      id, the event id, and the timestamp or session id, in this order and nothing else. */
  lemma KeyReadsBack(e: Event, kind: string, namespace: string, userId: string, eventId: string, last: string)
    requires Unambiguous(e)
    requires ':' !in kind && ':' !in namespace && ':' !in userId && ':' !in eventId
    ensures e.DeduplicationKey() == kind + ":" + (namespace + ":" + (userId + ":" + (eventId + ":" + last)))
       <==> KeyParts(e, kind, namespace, userId, eventId, last)
  {
    KeyOfIdentity(e);
    FieldsAreIdentity(e, e);
    var id := e.Identity();
    KindNamesAreColonFree(id.kind);
    assert KeyParts(e, kind, namespace, userId, eventId, last)
      <==> kind == id.kind.Name() && namespace == id.namespace && userId == id.userId
           && eventId == id.eventId && last == id.last;
    var rest := namespace + ":" + (userId + ":" + (eventId + ":" + last));
    if e.DeduplicationKey() == kind + ":" + rest {
      FirstColon(kind, rest, id.kind.Name(), id.Rest());
      FirstColon(namespace, userId + ":" + (eventId + ":" + last),
                 id.namespace, id.userId + ":" + (id.eventId + ":" + id.last));
      FirstColon(userId, eventId + ":" + last, id.userId, id.eventId + ":" + id.last);
      FirstColon(eventId, last, id.eventId, id.last);
    }
  }

  /** What is absent counts as empty: a nil payload as one with empty fields, and a nil context as
      one with an empty session id. */
  lemma AbsentCountsAsEmpty(e: Event)
    ensures !e.UserBehavior? && e.timed.None? ==>
              e.DeduplicationKey() == e.(timed := Some(TimedRequest("", ""))).DeduplicationKey()
    ensures e.UserBehavior? && e.behavior.None? ==>
              e.DeduplicationKey() == e.(behavior := Some(BehaviorRequest("", Some("")))).DeduplicationKey()
    ensures e.UserBehavior? && e.behavior.Some? && e.behavior.value.sessionId.None? ==>
              e.DeduplicationKey()
              == e.(behavior := Some(BehaviorRequest(e.behavior.value.eventId, Some("")))).DeduplicationKey()
  {
  }

  lemma ColonsInKey(a: Identity)
    ensures Colons(a.Rest())
         == 3 + Colons(a.namespace) + Colons(a.userId) + Colons(a.eventId) + Colons(a.last)
  {
    assert Colons(":") == 1 by { assert ":"[..0] == ""; }
    var t1 := a.eventId + ":" + a.last;
    var t2 := a.userId + ":" + t1;
    ColonsConcat(a.eventId + ":", a.last);
    ColonsConcat(a.eventId, ":");
    ColonsConcat(a.userId + ":", t1);
    ColonsConcat(a.userId, ":");
    ColonsConcat(a.namespace + ":", t2);
    ColonsConcat(a.namespace, ":");
  }

  /** Where a field holds the separator at position `i`, the key also belongs to another identity. */
  lemma SplitField(s: string) returns (p: string, q: string)
    requires ':' in s
    ensures s == p + ":" + q && |p| < |s|
  {
    var i :| 0 <= i < |s| && s[i] == ':';
    p, q := s[..i], s[i + 1..];
    assert s == p + ":" + q;
  }

  lemma AmbiguousIdentity(a: Identity) returns (b: Identity)
    requires !a.ColonFree()
    ensures b != a && b.kind == a.kind && b.Key() == a.Key()
  {
    if ':' in a.namespace {
      var p, q := SplitField(a.namespace);
      b := Id(a.kind, p, q, a.userId, a.eventId + ":" + a.last);
      Reassociate(p, q, a.userId + ":" + (a.eventId + ":" + a.last));
    } else if ':' in a.userId {
      var p, q := SplitField(a.userId);
      b := Id(a.kind, a.namespace, p, q, a.eventId + ":" + a.last);
      Reassociate(p, q, a.eventId + ":" + a.last);
    } else if ':' in a.eventId {
      var p, q := SplitField(a.eventId);
      b := Id(a.kind, a.namespace, a.userId, p, q + ":" + a.last);
      Reassociate(p, q, a.last);
    } else {
      var p, q := SplitField(a.last);
      b := Id(a.kind, a.namespace, a.userId, a.eventId + ":" + p, q);
      Reassociate(a.eventId, p, q);
    }
    assert b.Rest() == a.Rest();
  }

  /** The only identity with the same key is the identity itself. */
  ghost predicate UniquelyKeyed(a: Identity) {
    forall b: Identity :: b.Key() == a.Key() ==> b == a
  }

  /** Without any assumption on other events, a key identifies its event exactly
      when no field, the last one included, holds the separator. */
  lemma UniquelyKeyedExactlyWhenColonFree(a: Identity)
    ensures UniquelyKeyed(a) <==> a.ColonFree()
  {
    if a.ColonFree() {
      forall b: Identity | b.Key() == a.Key()
        ensures b == a
      {
        KindNamesAreColonFree(a.kind);
        KindNamesAreColonFree(b.kind);
        FirstColon(a.kind.Name(), a.Rest(), b.kind.Name(), b.Rest());
        ColonsInKey(a);
        ColonsInKey(b);
        ColonsZero(a.namespace); ColonsZero(a.userId); ColonsZero(a.eventId); ColonsZero(a.last);
        ColonsZero(b.namespace); ColonsZero(b.userId); ColonsZero(b.eventId);
        SeparableIdentitiesInjective(a, b);
      }
    } else {
      var b := AmbiguousIdentity(a);
      assert !UniquelyKeyed(a);
    }
  }
}
