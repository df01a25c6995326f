/** Which events `append` can produce, and so which stores a sequence of its calls yields. */
module AuditRequests {
  import opened Basics
  import opened Strings
  import opened AuditSanitizer
  import opened AuditChain

  // ----- stripped and cut texts -----

  /** A text that `x.strip()[:n]` can return: no space in front, and none at the end unless
      it was cut there. */
  predicate IsCut(s: string, n: nat) {
    && |s| <= n
    && (s != "" ==> !IsSpace(s[0]))
    && (0 < |s| < n ==> !IsSpace(s[|s| - 1]))
  }

  lemma {:induction false} StripLeftShape(x: string)
    ensures var s := StripLeft(x); s != "" ==> !IsSpace(s[0])
  {
    if x != "" && IsSpace(x[0]) { StripLeftShape(x[1..]); }
  }

  lemma {:induction false} StripRightShape(x: string)
    ensures var s := StripRight(x); s <= x && (s != "" ==> !IsSpace(s[|s| - 1]))
  {
    if x != "" && IsSpace(x[|x| - 1]) { StripRightShape(x[..|x| - 1]); }
  }

  lemma StripIsCut(x: string, n: nat)
    ensures IsCut(Take(Strip(x), n), n)
  {
    StripLeftShape(x);
    StripRightShape(StripLeft(x));
  }

  /** A text that is stripped and cut to `s`. */
  function Uncut(s: string, n: nat): string {
    if s != "" && IsSpace(s[|s| - 1]) then s + "." else s
  }

  lemma UncutIsCut(s: string, n: nat)
    requires IsCut(s, n)
    ensures Take(Strip(Uncut(s, n)), n) == s
  {
    var x := Uncut(s, n);
    assert x != "" ==> x[0] == s[0] && !IsSpace(x[|x| - 1]);
    assert Strip(x) == x;
  }

  // ----- contents -----

  ghost predicate Produced(c: Content, fold: char -> string) {
    exists r, now :: Normalized(r, now, fold) == c
  }

  predicate Bounded(s: Option<string>, n: nat) { s.Some? ==> |s.value| <= n }

  ghost predicate WellFormed(c: Content, fold: char -> string) {
    && |c.actorRoles| <= 50 && (forall i :: 0 <= i < |c.actorRoles| ==> |c.actorRoles[i]| <= 80)
    && c.details.Dict? && Clean(fold, c.details, MAX_DEPTH + 1)
    && FieldsFormed(c.fields)
  }

  predicate FieldsFormed(f: Fields) {
    && Bounded(f.actorSubject, 255) && Bounded(f.actorEmail, 320)
    && Bounded(f.requestId, 100) && Bounded(f.clientIp, 80)
    && IsCut(f.action, 160) && IsCut(f.resourceType, 120)
    && (f.resourceId.Some? ==> IsCut(f.resourceId.value, 255))
    && f.outcome != "" && IsCut(f.outcome, 32)
  }

  lemma NormalizedFields(r: Request, now: int, fold: char -> string)
    ensures FieldsFormed(Normalized(r, now, fold).fields)
  {
    StripIsCut(r.outcome, 32);
    StripIsCut(r.action, 160);
    StripIsCut(r.resourceType, 120);
    if r.resourceId.Some? { StripIsCut(r.resourceId.value, 255); }
  }

  lemma NormalizedFormed(r: Request, now: int, fold: char -> string)
    ensures WellFormed(Normalized(r, now, fold), fold)
  {
    NormalizedFields(r, now, fold);
    SanitizeCleans(fold, Dict(if r.details.None? then [] else r.details.value), 0);
  }

  /** A call that signs the content `c`. */
  function RequestFor(c: Content): Request
    requires c.details.Dict?
  {
    var f := c.fields;
    Request(
      Uncut(f.action, 160), Uncut(f.resourceType, 120),
      if f.resourceId.None? then None
      else if f.resourceId.value == "" then Some(" ")
      else Some(Uncut(f.resourceId.value, 255)),
      Uncut(f.outcome, 32), f.actorSubject, f.actorEmail, c.actorRoles, f.requestId, f.clientIp,
      Some(c.details.entries))
  }

  lemma ResourceIdKept(id: Option<string>)
    requires id.Some? ==> IsCut(id.value, 255)
    ensures id.None? ==> StrippedId(id) == id
    ensures id.Some? && id.value == "" ==> StrippedId(Some(" ")) == id
    ensures id.Some? && id.value != "" ==> StrippedId(Some(Uncut(id.value, 255))) == id
  {
    if id.Some? { UncutIsCut(id.value, 255); }
    assert Strip(" ") == "";
  }

  lemma FieldsProduced(c: Content, fold: char -> string)
    requires c.details.Dict? && FieldsFormed(c.fields)
    ensures Normalized(RequestFor(c), c.occurredAt, fold).fields == c.fields
  {
    var f := c.fields;
    UncutIsCut(f.action, 160);
    UncutIsCut(f.resourceType, 120);
    OutcomeKept(f.outcome);
    ResourceIdKept(f.resourceId);
    OptionsKept(f);
  }

  lemma OutcomeKept(outcome: string)
    requires outcome != "" && IsCut(outcome, 32)
    ensures OutcomeText(Uncut(outcome, 32)) == outcome
  {
    UncutIsCut(outcome, 32);
  }

  lemma OptionsKept(f: Fields)
    requires FieldsFormed(f)
    ensures Truncated(f.actorSubject, 255) == f.actorSubject && Truncated(f.actorEmail, 320) == f.actorEmail
    ensures Truncated(f.requestId, 100) == f.requestId && Truncated(f.clientIp, 80) == f.clientIp
  {
  }

  lemma RolesProduced(roles: seq<string>)
    requires |roles| <= 50 && forall i :: 0 <= i < |roles| ==> |roles[i]| <= 80
    ensures TruncatedAll(Take(roles, 50), 80) == roles
  {
  }

  lemma WellFormedSigned(c: Content, fold: char -> string)
    requires WellFormed(c, fold)
    ensures c.details.Dict? && Normalized(RequestFor(c), c.occurredAt, fold) == c
  {
    FieldsProduced(c, fold);
    RolesProduced(c.actorRoles);
    FixedIffClean(fold, c.details);
  }

  /** What `append` can sign: lengths within their limits, texts stripped, an outcome, and
      details that the sanitiser leaves alone. */
  lemma ProducedExactly(c: Content, fold: char -> string)
    ensures Produced(c, fold) <==> WellFormed(c, fold)
  {
    if r, now :| Normalized(r, now, fold) == c { NormalizedFormed(r, now, fold); }
    if WellFormed(c, fold) { WellFormedSigned(c, fold); }
  }

  // ----- stores -----

  /** One call of `append`, at a time and with a primary key. */
  datatype Call = Call(request: Request, now: int, keyId: KeyId)

  function EntryOf(call: Call, fold: char -> string): (Content, KeyId) {
    (Normalized(call.request, call.now, fold), call.keyId)
  }

  function EntriesOf(calls: seq<Call>, fold: char -> string): (entries: Entries)
    ensures |entries| == |calls|
  {
    if calls == [] then [] else EntriesOf(calls[..|calls| - 1], fold) + [EntryOf(calls[|calls| - 1], fold)]
  }

  lemma {:induction false} EntriesAt(calls: seq<Call>, fold: char -> string, i: nat)
    requires i < |calls|
    ensures EntriesOf(calls, fold)[i] == EntryOf(calls[i], fold)
  {
    if i < |calls| - 1 { EntriesAt(calls[..|calls| - 1], fold, i); }
  }

  /** The store that `calls` leave, begun on the migrated one. */
  ghost function Appended(calls: seq<Call>, keys: map<KeyId, Key>, digest: Digest, fold: char -> string): Store
    requires forall i :: 0 <= i < |calls| ==> calls[i].keyId in keys
  {
    if calls == [] then EMPTY
    else
      var last := calls[|calls| - 1];
      Extended(Appended(calls[..|calls| - 1], keys, digest, fold), Normalized(last.request, last.now, fold),
               last.keyId, keys[last.keyId], digest)
  }

  lemma EntryStorable(call: Call, fold: char -> string)
    ensures Storable(EntryOf(call, fold).0.details)
  {
    NormalizedFormed(call.request, call.now, fold);
  }

  lemma ReplaySnoc(front: Entries, last: (Content, KeyId), keys: map<KeyId, Key>, digest: Digest)
    requires Signable(front, keys) && Storable(last.0.details) && last.1 in keys
    ensures Signable(front + [last], keys)
    ensures Replay(front + [last], keys, digest)
      == Extended(Replay(front, keys, digest), last.0, last.1, keys[last.1], digest)
  {
    assert (front + [last])[..|front|] == front;
  }

  lemma {:induction false} AppendedIsReplayed(calls: seq<Call>, keys: map<KeyId, Key>, digest: Digest,
                                              fold: char -> string)
    requires forall i :: 0 <= i < |calls| ==> calls[i].keyId in keys
    ensures Signable(EntriesOf(calls, fold), keys)
    ensures Appended(calls, keys, digest, fold) == Replay(EntriesOf(calls, fold), keys, digest)
  {
    if calls != [] {
      var front := calls[..|calls| - 1];
      AppendedIsReplayed(front, keys, digest, fold);
      var last := calls[|calls| - 1];
      EntryStorable(last, fold);
      ReplaySnoc(EntriesOf(front, fold), EntryOf(last, fold), keys, digest);
    }
  }

  ghost predicate AllFormed(s: Store, fold: char -> string) {
    forall i :: 0 <= i < |s.events| ==> WellFormed(Rebuilt(s.events[i]).content, fold)
  }

  ghost predicate LeftBy(s: Store, calls: seq<Call>, keys: map<KeyId, Key>, digest: Digest, fold: char -> string) {
    && (forall i :: 0 <= i < |calls| ==> calls[i].keyId in keys)
    && Equivalent(s, Appended(calls, keys, digest, fold))
  }

  lemma LeftIsFormed(s: Store, calls: seq<Call>, keys: map<KeyId, Key>, digest: Digest, fold: char -> string)
    requires LeftBy(s, calls, keys, digest, fold)
    ensures Accepted(s, keys, digest) && AllFormed(s, fold)
  {
    var entries := EntriesOf(calls, fold);
    AppendedIsReplayed(calls, keys, digest, fold);
    ReplayAccepted(entries, keys, digest);
    ReplayContents(entries, keys, digest);
    var t := Replay(entries, keys, digest);
    EquivalentAccepted(s, t, keys, digest);
    forall i | 0 <= i < |s.events| ensures WellFormed(Rebuilt(s.events[i]).content, fold) {
      assert Meaning(s.events[i]) == Meaning(t.events[i]);
      EntriesAt(calls, fold, i);
      NormalizedFormed(calls[i].request, calls[i].now, fold);
    }
  }

  lemma {:induction false} ReplayContents(history: Entries, keys: map<KeyId, Key>, digest: Digest)
    requires Signable(history, keys)
    ensures var t := Replay(history, keys, digest);
      |t.events| == |history| && forall i :: 0 <= i < |history| ==> Rebuilt(t.events[i]).content == history[i].0
  {
    if history != [] { ReplayContents(history[..|history| - 1], keys, digest); }
  }

  lemma FormedIsLeft(s: Store, keys: map<KeyId, Key>, digest: Digest, fold: char -> string) returns (calls: seq<Call>)
    requires Accepted(s, keys, digest) && AllFormed(s, fold)
    ensures LeftBy(s, calls, keys, digest, fold)
  {
    var history := HistoryOf(s.events);
    AcceptedIsReplayed(s, keys, digest);
    calls := seq(|history|, i requires 0 <= i < |history| =>
      if history[i].0.details.Dict? then Call(RequestFor(history[i].0), history[i].0.occurredAt, history[i].1)
      else BLANK);
    forall i | 0 <= i < |history| ensures EntriesOf(calls, fold)[i] == history[i] && calls[i].keyId in keys {
      EntriesAt(calls, fold, i);
      WellFormedSigned(history[i].0, fold);
    }
    assert EntriesOf(calls, fold) == history;
    AppendedIsReplayed(calls, keys, digest, fold);
  }

  /** `verify` accepts a store all of whose events `append` can sign, if and only if some
      sequence of `append` calls to the migrated store leaves it, each with any key of the
      ring as primary, up to the representations it factors out. */
  lemma AcceptedIffAppended(s: Store, keys: map<KeyId, Key>, digest: Digest, fold: char -> string)
    ensures Accepted(s, keys, digest) && AllFormed(s, fold) <==> exists calls :: LeftBy(s, calls, keys, digest, fold)
  {
    if Accepted(s, keys, digest) && AllFormed(s, fold) { var calls := FormedIsLeft(s, keys, digest, fold); }
    if calls :| LeftBy(s, calls, keys, digest, fold) { LeftIsFormed(s, calls, keys, digest, fold); }
  }

  const BLANK := Call(Request("", "", None, "", None, None, [], None, None, None), 0, "")
}
