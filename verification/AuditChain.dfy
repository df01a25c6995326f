/**
 The audit hash chain: `append` extends it, `verify` walks it. The keyed digest is
 an arbitrary function of key bytes and payload (HMAC, section 2 of RFC 2104); it
 is taken to be injective only where a lemma says so.
 */
module AuditChain {
  import opened Basics
  import opened Strings
  import opened AuditSanitizer
  import opened JsonText

  type Hash = string
  type KeyId = string
  type Key = string

  const GENESIS: Hash := "GENESIS"

  /** The fields that are stored exactly as they were signed. */
  datatype Fields = Fields(
    actorSubject: Option<string>,
    actorEmail: Option<string>,
    action: string,
    resourceType: string,
    resourceId: Option<string>,
    outcome: string,
    requestId: Option<string>,
    clientIp: Option<string>)

  /** What an event says, before it is chained. Times are instants in UTC. */
  datatype Content = Content(occurredAt: int, actorRoles: seq<string>, details: Json, fields: Fields)

  /** The digest's input: every signed field of one event. */
  datatype Payload = Payload(sequence: int, content: Content, keyId: KeyId, previousHash: Hash)

  /** A stored time: an instant, and the UTC offset it is shown with if it has one. */
  datatype StoredTime = StoredTime(local: int, offset: Option<int>)

  /** A stored row. Roles and details can be absent; times can be naive or zoned. */
  datatype Event = Event(
    sequence: int,
    occurredAt: StoredTime,
    actorRoles: Option<seq<string>>,
    details: Option<Json>,
    fields: Fields,
    keyId: KeyId,
    previousHash: Hash,
    eventHash: Hash)

  datatype Tail = Tail(sequence: int, hash: Hash)

  /** `events` is the table in ascending order of its unique sequence column. */
  datatype Store = Store(events: seq<Event>, tail: Option<Tail>)

  /** The store the migration creates. */
  const EMPTY := Store([], Some(Tail(0, GENESIS)))

  /** Naive times are read as UTC, zoned ones converted to it. */
  function Instant(t: StoredTime): int { if t.offset.None? then t.local else t.local - t.offset.value }

  /** A value that is false in a condition; `verify` reads it as an empty dictionary. */
  predicate Falsy(v: Json) {
    match v
    case Null => true
    case Bool(b) => !b
    case Number(text) => text in {"0", "0.0", "-0.0"}
    case Text(s) => s == ""
    case List(items) => items == []
    case Dict(entries) => entries == []
    case Other(_) => false
  }

  /** Details that are read back as they are. */
  predicate Storable(v: Json) { Falsy(v) ==> v == Dict([]) }

  /** The payload `verify` rebuilds from a row. */
  function Rebuilt(e: Event): Payload {
    Payload(
      e.sequence,
      Content(Instant(e.occurredAt),
              if e.actorRoles.None? then [] else e.actorRoles.value,
              if e.details.None? || Falsy(e.details.value) then Dict([]) else e.details.value,
              e.fields),
      e.keyId,
      e.previousHash)
  }

  /** What a row says once representation is factored out. */
  datatype Signed = Signed(payload: Payload, eventHash: Hash)

  function Meaning(e: Event): Signed { Signed(Rebuilt(e), e.eventHash) }

  // ----- the keyring -----

  /** Later keys with the same id replace earlier ones, as in the source dictionary. */
  function Keyring(raw: seq<string>, idOf: string -> KeyId, keyOf: string -> Key): map<KeyId, Key> {
    if raw == [] then map[]
    else Keyring(raw[..|raw| - 1], idOf, keyOf)[idOf(raw[|raw| - 1]) := keyOf(raw[|raw| - 1])]
  }

  /** Adding keys in any order keeps every old entry, provided no two raw keys of the
      new list share an id. */
  lemma {:induction false} KeyringHas(raw: seq<string>, idOf: string -> KeyId, keyOf: string -> Key)
    requires forall a, b :: a in raw && b in raw && idOf(a) == idOf(b) ==> a == b
    ensures forall id :: id in Keyring(raw, idOf, keyOf) <==> exists a :: a in raw && idOf(a) == id
    ensures forall a :: a in raw ==>
      idOf(a) in Keyring(raw, idOf, keyOf) && Keyring(raw, idOf, keyOf)[idOf(a)] == keyOf(a)
  {
    if raw != [] {
      var front, last := raw[..|raw| - 1], raw[|raw| - 1];
      assert raw == front + [last];
      KeyringHas(front, idOf, keyOf);
    }
  }

  ghost predicate SubRing(a: map<KeyId, Key>, b: map<KeyId, Key>) {
    forall id :: id in a ==> id in b && b[id] == a[id]
  }

  lemma SupersetRing(old_: seq<string>, new_: seq<string>, idOf: string -> KeyId, keyOf: string -> Key)
    requires forall a :: a in old_ ==> a in new_
    requires forall a, b :: a in new_ && b in new_ && idOf(a) == idOf(b) ==> a == b
    ensures SubRing(Keyring(old_, idOf, keyOf), Keyring(new_, idOf, keyOf))
  {
    KeyringHas(old_, idOf, keyOf);
    KeyringHas(new_, idOf, keyOf);
  }

  // ----- what verify checks -----

  type Digest = (Key, Payload) -> Hash

  function PreviousHash(events: seq<Event>, i: nat): Hash
    requires i <= |events|
  {
    if i == 0 then GENESIS else events[i - 1].eventHash
  }

  /** Row `i` is in place, signed with a key of the ring, and chained to the row before it. */
  predicate GoodAt(events: seq<Event>, i: nat, keys: map<KeyId, Key>, digest: Digest)
    requires i < |events|
  {
    var e := events[i];
    && e.sequence == i + 1
    && e.keyId in keys
    && e.previousHash == PreviousHash(events, i)
    && e.eventHash == digest(keys[e.keyId], Rebuilt(e))
  }

  function ExpectedTail(events: seq<Event>): Tail {
    if events == [] then Tail(0, GENESIS)
    else Tail(events[|events| - 1].sequence, events[|events| - 1].eventHash)
  }

  datatype Verification = Verification(
    valid: bool, checked: int, total: int, complete: bool, firstInvalid: Option<int>)

  ghost predicate GoodTo(events: seq<Event>, n: nat, keys: map<KeyId, Key>, digest: Digest)
    requires n <= |events|
  {
    forall i: nat :: i < n ==> GoodAt(events, i, keys, digest)
  }

  ghost predicate FirstBad(events: seq<Event>, g: nat, keys: map<KeyId, Key>, digest: Digest)
    requires g < |events|
  {
    GoodTo(events, g, keys, digest) && !GoodAt(events, g, keys, digest)
  }

  /** What a verification of the first `n` rows says: valid if and only if all of them are good
      and, when they are all there are, the tail is that of the last; how much was checked; and
      the first bad row, or the place after the last row if only the tail is wrong. */
  ghost predicate Reports(v: Verification, s: Store, n: nat, keys: map<KeyId, Key>, digest: Digest)
    requires n <= |s.events|
  {
    var total := |s.events|;
    var good := GoodTo(s.events, n, keys, digest);
    var tail := if n == 0 then Tail(0, "GENESIS") else Tail(s.events[n - 1].sequence, s.events[n - 1].eventHash);
    && v.total == total
    && (v.valid <==> good && (n == total ==> s.tail == Some(tail)))
    && (v.firstInvalid.None? <==> v.valid)
    && (good ==> v.checked == n && (v.complete <==> n == total))
    && (good && !v.valid ==> v.firstInvalid == Some(n + 1))
    && (!good ==> exists g: nat :: g < n && FirstBad(s.events, g, keys, digest)
                    && v.firstInvalid == Some(s.events[g].sequence)
                    && v.checked == g + 1 && (v.complete <==> g + 1 == total))
  }

  lemma BadRowReports(s: Store, n: nat, keys: map<KeyId, Key>, digest: Digest, i: nat)
    requires i < n <= |s.events| && !GoodAt(s.events, i, keys, digest)
    requires GoodTo(s.events, i, keys, digest)
    ensures var v := Verification(false, i + 1, |s.events|, i + 1 >= |s.events|, Some(s.events[i].sequence));
      Reports(v, s, n, keys, digest)
  {
    assert FirstBad(s.events, i, keys, digest);
  }

  lemma GoodRowsReport(s: Store, n: nat, keys: map<KeyId, Key>, digest: Digest)
    requires n <= |s.events| && GoodTo(s.events, n, keys, digest)
    ensures var last := if n == 0 then Tail(0, GENESIS) else Tail(s.events[n - 1].sequence, s.events[n - 1].eventHash);
      Reports(if n == |s.events| && s.tail != Some(last)
              then Verification(false, n, |s.events|, true, Some(last.sequence + 1))
              else Verification(true, n, |s.events|, n == |s.events|, None), s, n, keys, digest)
  {
    if n > 0 { assert GoodAt(s.events, n - 1, keys, digest); }
  }

  // ----- append -----

  /** The arguments of `append`, with the identity and request already resolved. */
  datatype Request = Request(
    action: string, resourceType: string, resourceId: Option<string>, outcome: string,
    subject: Option<string>, email: Option<string>, roles: seq<string>,
    requestId: Option<string>, clientIp: Option<string>, details: Option<seq<Entry>>)

  function Truncated(s: Option<string>, n: nat): Option<string> {
    if s.None? then None else Some(Take(s.value, n))
  }

  function TruncatedAll(roles: seq<string>, n: nat): (r: seq<string>)
    ensures |r| == |roles|
  {
    seq(|roles|, i requires 0 <= i < |roles| => Take(roles[i], n))
  }

  function StrippedId(id: Option<string>): Option<string> {
    if id.None? || id.value == "" then None else Some(Take(Strip(id.value), 255))
  }

  function OutcomeText(text: string): string {
    if Take(Strip(text), 32) == "" then "succeeded" else Take(Strip(text), 32)
  }

  function Normalized(r: Request, now: int, fold: char -> string): Content {
    Content(
      now,
      TruncatedAll(Take(r.roles, 50), 80),
      SafeDetails(fold, r.details),
      Fields(
        Truncated(r.subject, 255),
        Truncated(r.email, 320),
        Take(Strip(r.action), 160),
        Take(Strip(r.resourceType), 120),
        StrippedId(r.resourceId),
        OutcomeText(r.outcome),
        Truncated(r.requestId, 100),
        Truncated(r.clientIp, 80)))
  }

  /** The store after one append of already normalised content. */
  function Extended(s: Store, c: Content, keyId: KeyId, key: Key, digest: Digest): Store {
    var tail := if s.tail.None? then Tail(0, GENESIS) else s.tail.value;
    var payload := Payload(tail.sequence + 1, c, keyId, tail.hash);
    var hash := digest(key, payload);
    Store(
      s.events + [Event(tail.sequence + 1, StoredTime(c.occurredAt, Some(0)), Some(c.actorRoles), Some(c.details),
                        c.fields, keyId, tail.hash, hash)],
      Some(Tail(tail.sequence + 1, hash)))
  }

  /** The field is absent or the first `n` characters of the argument. */
  ghost predicate CutTo(field: Option<string>, argument: Option<string>, n: nat) {
    (field.None? <==> argument.None?) && (field.Some? ==> field.value == Take(argument.value, n))
  }

  /** What a row that has everything says, at `now`. */
  function Said(e: Event, now: int): Content
    requires e.actorRoles.Some? && e.details.Some?
  {
    Content(now, e.actorRoles.value, e.details.value, e.fields)
  }

  class AuditService {
    var store: Store
    const keys: map<KeyId, Key>
    const primary: KeyId
    const digest: Digest
    const fold: char -> string

    constructor (raw: seq<string>, idOf: string -> KeyId, keyOf: string -> Key, digest: Digest, fold: char -> string)
      requires raw != []
      ensures keys == Keyring(raw, idOf, keyOf) && primary == idOf(raw[0]) && primary in keys
      ensures this.digest == digest && this.fold == fold && store == EMPTY
    {
      PrimaryInRing(raw, idOf, keyOf);
      keys := Keyring(raw, idOf, keyOf);
      primary := idOf(raw[0]);
      this.digest := digest;
      this.fold := fold;
      store := EMPTY;
    }

    method Append(r: Request, now: int) returns (e: Event)
      requires primary in keys
      modifies this
      ensures store == Extended(old(store), Normalized(r, now, fold), primary, keys[primary], digest)
      ensures store.events == old(store).events + [e]
      ensures e.actorRoles.Some? && e.details.Some?
      ensures var tail := if old(store).tail.None? then Tail(0, "GENESIS") else old(store).tail.value;
        && e.eventHash == digest(keys[primary], Payload(e.sequence, Said(e, now), primary, tail.hash))
        && store.tail == Some(Tail(tail.sequence + 1, e.eventHash))
        && e.sequence == tail.sequence + 1 && e.previousHash == tail.hash && e.keyId == primary
      ensures e.occurredAt == StoredTime(now, Some(0)) && e.details == Some(SafeDetails(fold, r.details))
      ensures e.actorRoles.Some? && |e.actorRoles.value| == Min(|r.roles|, 50)
        && forall i :: 0 <= i < |e.actorRoles.value| ==> e.actorRoles.value[i] == Take(r.roles[i], 80)
      ensures e.fields.action == Take(Strip(r.action), 160)
        && e.fields.resourceType == Take(Strip(r.resourceType), 120)
        && e.fields.outcome == (if Take(Strip(r.outcome), 32) == "" then "succeeded" else Take(Strip(r.outcome), 32))
      ensures CutTo(e.fields.actorSubject, r.subject, 255) && CutTo(e.fields.actorEmail, r.email, 320)
        && CutTo(e.fields.requestId, r.requestId, 100) && CutTo(e.fields.clientIp, r.clientIp, 80)
      ensures if r.resourceId.None? || r.resourceId.value == "" then e.fields.resourceId.None?
              else e.fields.resourceId == Some(Take(Strip(r.resourceId.value), 255))
    {
      var content := Normalized(r, now, fold);
      if store.tail.None? {
        store := store.(tail := Some(Tail(0, GENESIS)));
      }
      var tail := store.tail.value;
      var sequence := tail.sequence + 1;
      var hash := digest(keys[primary], Payload(sequence, content, primary, tail.hash));
      e := Event(sequence, StoredTime(now, Some(0)), Some(content.actorRoles), Some(content.details),
                 content.fields, primary, tail.hash, hash);
      store := Store(store.events + [e], Some(Tail(sequence, hash)));
    }

    method Verify(limit: int) returns (v: Verification)
      ensures Reports(v, store, Min(|store.events|, Max(1, Min(limit, 1_000_000))), keys, digest)
    {
      var safe := Max(1, Min(limit, 1_000_000));
      var total := |store.events|;
      var events := Take(store.events, safe);
      var previous := GENESIS;
      var index := 0;
      while index < |events|
        invariant 0 <= index <= |events|
        invariant previous == PreviousHash(store.events, index)
        invariant GoodTo(store.events, index, keys, digest)
      {
        var e := events[index];
        ghost var good := GoodAt(store.events, index, keys, digest);
        if !good { BadRowReports(store, |events|, keys, digest, index); }
        index := index + 1;
        assert good || Reports(Verification(false, index, total, index >= total, Some(e.sequence)),
          store, |events|, keys, digest);
        if e.sequence != index {
          return Verification(false, index, total, index >= total, Some(e.sequence));
        }
        if e.keyId !in keys {
          return Verification(false, index, total, index >= total, Some(e.sequence));
        }
        var expected := digest(keys[e.keyId], Rebuilt(e));
        if e.previousHash != previous || e.eventHash != expected {
          return Verification(false, index, total, index >= total, Some(e.sequence));
        }
        previous := e.eventHash;
      }
      GoodRowsReport(store, |events|, keys, digest);
      var complete := |events| >= total;
      if complete {
        var expected := if events == [] then Tail(0, GENESIS)
                        else Tail(events[|events| - 1].sequence, events[|events| - 1].eventHash);
        if store.tail != Some(expected) {
          return Verification(false, |events|, total, true, Some(expected.sequence + 1));
        }
      }
      return Verification(true, |events|, total, complete, None);
    }
  }

  lemma {:induction false} PrimaryInRing(raw: seq<string>, idOf: string -> KeyId, keyOf: string -> Key)
    requires raw != []
    ensures idOf(raw[0]) in Keyring(raw, idOf, keyOf)
  {
    if |raw| > 1 {
      PrimaryInRing(raw[..|raw| - 1], idOf, keyOf);
    }
  }

  // ----- what acceptance means -----

  /** Valid and complete. */
  ghost predicate Accepted(s: Store, keys: map<KeyId, Key>, digest: Digest) {
    && (forall i: nat :: i < |s.events| ==> GoodAt(s.events, i, keys, digest))
    && s.tail == Some(ExpectedTail(s.events))
  }

  lemma ReportAccepts(v: Verification, s: Store, limit: int, keys: map<KeyId, Key>, digest: Digest)
    requires Reports(v, s, Min(|s.events|, Max(1, Min(limit, 1_000_000))), keys, digest)
    ensures v.valid && v.complete <==> Accepted(s, keys, digest) && |s.events| <= Max(1, Min(limit, 1_000_000))
  {
  }

  type Entries = seq<(Content, KeyId)>

  ghost predicate Signable(history: Entries, keys: map<KeyId, Key>) {
    forall i :: 0 <= i < |history| ==> Storable(history[i].0.details) && history[i].1 in keys
  }

  /** The store that appending `history` to the migrated store produces, each entry
      with its own primary key. */
  ghost function Replay(history: Entries, keys: map<KeyId, Key>, digest: Digest): Store
    requires Signable(history, keys)
  {
    if history == [] then EMPTY
    else
      var last := history[|history| - 1];
      Extended(Replay(history[..|history| - 1], keys, digest), last.0, last.1, keys[last.1], digest)
  }

  ghost predicate SameMeaning(a: seq<Event>, b: seq<Event>) {
    |a| == |b| && forall i :: 0 <= i < |a| ==> Meaning(a[i]) == Meaning(b[i])
  }

  ghost predicate Equivalent(s: Store, t: Store) { SameMeaning(s.events, t.events) && s.tail == t.tail }

  lemma AppendAccepted(s: Store, c: Content, keyId: KeyId, keys: map<KeyId, Key>, digest: Digest)
    requires Accepted(s, keys, digest) && keyId in keys && Storable(c.details)
    ensures Accepted(Extended(s, c, keyId, keys[keyId], digest), keys, digest)
  {
    var t := Extended(s, c, keyId, keys[keyId], digest);
    forall i: nat | i < |t.events|
      ensures GoodAt(t.events, i, keys, digest)
    {
      if i < |s.events| {
        assert GoodAt(s.events, i, keys, digest);
      } else if i > 0 {
        assert GoodAt(s.events, i - 1, keys, digest);
      }
    }
  }

  lemma {:induction false} ReplayAccepted(history: Entries, keys: map<KeyId, Key>, digest: Digest)
    requires Signable(history, keys)
    ensures Accepted(Replay(history, keys, digest), keys, digest)
    ensures |Replay(history, keys, digest).events| == |history|
  {
    if history != [] {
      var last := history[|history| - 1];
      ReplayAccepted(history[..|history| - 1], keys, digest);
      AppendAccepted(Replay(history[..|history| - 1], keys, digest), last.0, last.1, keys, digest);
    }
  }

  lemma EquivalentAccepted(s: Store, t: Store, keys: map<KeyId, Key>, digest: Digest)
    requires Equivalent(s, t) && Accepted(t, keys, digest)
    ensures Accepted(s, keys, digest)
  {
    forall i: nat | i < |s.events|
      ensures GoodAt(s.events, i, keys, digest)
    {
      assert Meaning(s.events[i]) == Meaning(t.events[i]) && GoodAt(t.events, i, keys, digest);
      if i > 0 { assert Meaning(s.events[i - 1]) == Meaning(t.events[i - 1]); }
    }
    if s.events != [] {
      assert Meaning(s.events[|s.events| - 1]) == Meaning(t.events[|s.events| - 1]);
    }
  }

  ghost function HistoryOf(events: seq<Event>): Entries {
    seq(|events|, i requires 0 <= i < |events| => (Rebuilt(events[i]).content, events[i].keyId))
  }

  ghost function Front(s: Store): Store
    requires s.events != []
  {
    var front := s.events[..|s.events| - 1];
    Store(front, Some(ExpectedTail(front)))
  }

  lemma FrontAccepted(s: Store, keys: map<KeyId, Key>, digest: Digest)
    requires Accepted(s, keys, digest) && s.events != []
    ensures Accepted(Front(s), keys, digest)
    ensures var last := s.events[|s.events| - 1];
      var tail := Front(s).tail.value;
      && last.keyId in keys && last.sequence == tail.sequence + 1 && last.previousHash == tail.hash
      && last.eventHash == digest(keys[last.keyId], Rebuilt(last))
      && s.tail == Some(Tail(last.sequence, last.eventHash))
  {
    var n := |s.events|;
    forall i: nat | i < n - 1 ensures GoodAt(Front(s).events, i, keys, digest) {
      assert GoodAt(s.events, i, keys, digest);
    }
    assert GoodAt(s.events, n - 1, keys, digest);
    if n > 1 { assert GoodAt(s.events, n - 2, keys, digest); }
  }

  lemma ExtendEquivalent(s: Store, front: Store, keys: map<KeyId, Key>, digest: Digest)
    requires Accepted(s, keys, digest) && s.events != [] && Equivalent(Front(s), front)
    ensures var last := s.events[|s.events| - 1];
      last.keyId in keys && Equivalent(s, Extended(front, Rebuilt(last).content, last.keyId, keys[last.keyId], digest))
  {
    FrontAccepted(s, keys, digest);
    var last := s.events[|s.events| - 1];
    var t := Extended(front, Rebuilt(last).content, last.keyId, keys[last.keyId], digest);
    forall i | 0 <= i < |s.events| ensures Meaning(s.events[i]) == Meaning(t.events[i]) {
      if i < |s.events| - 1 {
        assert Meaning(Front(s).events[i]) == Meaning(front.events[i]);
      }
    }
  }

  lemma AcceptedSignable(s: Store, keys: map<KeyId, Key>, digest: Digest)
    requires Accepted(s, keys, digest)
    ensures Signable(HistoryOf(s.events), keys)
  {
    forall i | 0 <= i < |s.events| ensures s.events[i].keyId in keys {
      assert GoodAt(s.events, i, keys, digest);
    }
  }

  lemma LastReplayed(s: Store, keys: map<KeyId, Key>, digest: Digest)
    requires s.events != [] && Signable(HistoryOf(s.events), keys) && Signable(HistoryOf(Front(s).events), keys)
    ensures var last := s.events[|s.events| - 1];
      last.keyId in keys
      && Replay(HistoryOf(s.events), keys, digest)
         == Extended(Replay(HistoryOf(Front(s).events), keys, digest),
                     Rebuilt(last).content, last.keyId, keys[last.keyId], digest)
  {
    var history := HistoryOf(s.events);
    assert history[..|s.events| - 1] == HistoryOf(Front(s).events);
    assert history[|s.events| - 1].1 in keys;
  }

  lemma {:induction false} AcceptedIsReplayed(s: Store, keys: map<KeyId, Key>, digest: Digest)
    requires Accepted(s, keys, digest)
    ensures Signable(HistoryOf(s.events), keys)
    ensures Equivalent(s, Replay(HistoryOf(s.events), keys, digest))
    decreases |s.events|
  {
    AcceptedSignable(s, keys, digest);
    if s.events != [] {
      FrontAccepted(s, keys, digest);
      AcceptedIsReplayed(Front(s), keys, digest);
      LastReplayed(s, keys, digest);
      ExtendEquivalent(s, Replay(HistoryOf(Front(s).events), keys, digest), keys, digest);
    }
  }

  /** `verify` accepts exactly the stores that some sequence of appends to the migrated
      store produces, up to the representations it factors out. */
  lemma AcceptedIffProduced(s: Store, keys: map<KeyId, Key>, digest: Digest)
    ensures Accepted(s, keys, digest) <==>
      exists history :: Signable(history, keys) && Equivalent(s, Replay(history, keys, digest))
  {
    if Accepted(s, keys, digest) {
      AcceptedIsReplayed(s, keys, digest);
    }
    forall history | Signable(history, keys) && Equivalent(s, Replay(history, keys, digest))
      ensures Accepted(s, keys, digest)
    {
      ReplayAccepted(history, keys, digest);
      EquivalentAccepted(s, Replay(history, keys, digest), keys, digest);
    }
  }

  // ----- tampering -----

  /** Payloads with one serialisation. */
  ghost predicate SamePayload(p: Payload, q: Payload) {
    && p == q.(content := q.content.(details := p.content.details))
    && Serialised(p.content.details) == Serialised(q.content.details)
  }

  /** The digest is of the serialisation. */
  ghost predicate Serialises(digest: Digest) {
    forall k, p, q {:trigger digest(k, p), digest(k, q)} :: SamePayload(p, q) ==> digest(k, p) == digest(k, q)
  }

  /** Payloads with one digest have one serialisation, whatever the keys. */
  ghost predicate Injective(digest: Digest) {
    forall k, p, l, q {:trigger digest(k, p), digest(l, q)} :: digest(k, p) == digest(l, q) ==> SamePayload(p, q)
  }

  /** Rows that say the same, up to the order of dictionary keys. */
  ghost predicate SayTheSame(a: seq<Event>, b: seq<Event>) {
    |a| == |b| && forall i :: 0 <= i < |a| ==> SameRow(a[i], b[i])
  }

  ghost predicate SameRow(e: Event, f: Event) { SamePayload(Rebuilt(e), Rebuilt(f)) && e.eventHash == f.eventHash }

  ghost predicate AllGood(events: seq<Event>, keys: map<KeyId, Key>, digest: Digest) {
    GoodTo(events, |events|, keys, digest)
  }

  lemma FrontGood(events: seq<Event>, keys: map<KeyId, Key>, digest: Digest)
    requires events != [] && AllGood(events, keys, digest)
    ensures AllGood(events[..|events| - 1], keys, digest)
  {
    var front := events[..|events| - 1];
    forall i: nat | i < |front| ensures GoodAt(front, i, keys, digest) { assert GoodAt(events, i, keys, digest); }
  }

  /** Good last rows with one hash say the same and follow rows with one hash. */
  lemma SameLast(a: seq<Event>, b: seq<Event>, ka: map<KeyId, Key>, kb: map<KeyId, Key>, digest: Digest)
    requires Injective(digest) && |a| == |b| > 0 && AllGood(a, ka, digest) && AllGood(b, kb, digest)
    requires a[|a| - 1].eventHash == b[|b| - 1].eventHash
    ensures SameRow(a[|a| - 1], b[|b| - 1])
    ensures |a| > 1 ==> a[|a| - 2].eventHash == b[|b| - 2].eventHash
  {
    assert GoodAt(a, |a| - 1, ka, digest) && GoodAt(b, |b| - 1, kb, digest);
  }

  lemma {:induction false} SameLastSameAll(a: seq<Event>, b: seq<Event>, ka: map<KeyId, Key>, kb: map<KeyId, Key>,
                                           digest: Digest)
    requires Injective(digest) && |a| == |b| && AllGood(a, ka, digest) && AllGood(b, kb, digest)
    requires a != [] ==> a[|a| - 1].eventHash == b[|b| - 1].eventHash
    ensures SayTheSame(a, b)
    decreases |a|
  {
    var n := |a|;
    if n > 0 {
      SameLast(a, b, ka, kb, digest);
      FrontGood(a, ka, digest);
      FrontGood(b, kb, digest);
      SameLastSameAll(a[..n - 1], b[..n - 1], ka, kb, digest);
      forall i | 0 <= i < n ensures SameRow(a[i], b[i]) {
        if i < n - 1 { assert SameRow(a[..n - 1][i], b[..n - 1][i]); }
      }
    }
  }

  /** Two accepted stores with one tail tell one story: no edit, insertion, removal or
      reordering of rows leaves an accepted store with the tail it had. */
  lemma TailFixesHistory(s: Store, t: Store, ks: map<KeyId, Key>, kt: map<KeyId, Key>, digest: Digest)
    requires Injective(digest) && Accepted(s, ks, digest) && Accepted(t, kt, digest) && s.tail == t.tail
    ensures SayTheSame(s.events, t.events)
  {
    if s.events != [] { assert GoodAt(s.events, |s.events| - 1, ks, digest); }
    if t.events != [] { assert GoodAt(t.events, |t.events| - 1, kt, digest); }
    SameLastSameAll(s.events, t.events, ks, kt, digest);
  }

  /** Of the stores with the tail of an accepted one, exactly those are accepted that say the
      same: only the order of dictionary keys can be changed unnoticed. */
  lemma TailFixesExactly(s: Store, t: Store, keys: map<KeyId, Key>, digest: Digest)
    requires Injective(digest) && Serialises(digest) && Accepted(s, keys, digest) && s.tail == t.tail
    ensures Accepted(t, keys, digest) <==> SayTheSame(s.events, t.events)
  {
    if Accepted(t, keys, digest) { TailFixesHistory(s, t, keys, keys, digest); }
    if SayTheSame(s.events, t.events) {
      var n := |s.events|;
      forall i: nat | i < n ensures GoodAt(t.events, i, keys, digest) {
        assert GoodAt(s.events, i, keys, digest) && SameRow(s.events[i], t.events[i]);
        if i > 0 { assert SameRow(s.events[i - 1], t.events[i - 1]); }
      }
      if n > 0 { assert SameRow(s.events[n - 1], t.events[n - 1]); }
    }
  }

  /** Reordering the keys of a stored row is such a change. */
  lemma KeyOrderIsFree(e: Event, entries: seq<Entry>, reordered: seq<Entry>)
    requires e.details == Some(Dict(entries)) && multiset(entries) == multiset(reordered)
    requires UniqueKeys(entries) && UniqueKeys(reordered)
    ensures SameRow(e, e.(details := Some(Dict(reordered))))
  {
    Reordered(entries, reordered);
    assert |multiset(entries)| == |multiset(reordered)|;
  }

  /** Rotating keys in never rejects an accepted store. */
  lemma MoreKeysAccept(s: Store, old_: seq<string>, new_: seq<string>, idOf: string -> KeyId, keyOf: string -> Key,
                       digest: Digest)
    requires Accepted(s, Keyring(old_, idOf, keyOf), digest)
    requires forall a :: a in old_ ==> a in new_
    requires forall a, b :: a in new_ && b in new_ && idOf(a) == idOf(b) ==> a == b
    ensures Accepted(s, Keyring(new_, idOf, keyOf), digest)
  {
    SupersetRing(old_, new_, idOf, keyOf);
    forall i: nat | i < |s.events| ensures GoodAt(s.events, i, Keyring(new_, idOf, keyOf), digest) {
      assert GoodAt(s.events, i, Keyring(old_, idOf, keyOf), digest);
    }
  }
}
