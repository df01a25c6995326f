/** The sanitiser every audit detail passes through before it is signed and stored. */
module AuditSanitizer {
  import opened Basics
  import opened Strings

  /** A detail value. Keys are given as `str(key)`, so a source dictionary whose keys
      print alike has several entries with one key here. `Other` is any other object,
      by its printed form. */
  datatype Json =
    | Null
    | Bool(b: bool)
    | Number(text: string)
    | Text(s: string)
    | List(items: seq<Json>)
    | Dict(entries: seq<Entry>)
    | Other(printed: string)

  datatype Entry = Entry(key: string, value: Json)

  const MAX_DEPTH := 6
  const MAX_ITEMS := 100
  const MAX_TEXT := 4000
  const REDACTED := "[REDACTED]"
  const TOO_DEEP := "[MAX_DEPTH]"
  const FORBIDDEN := ["secret", "token", "password", "credential", "authorization", "api_key"]

  predicate Sensitive(fold: char -> string, key: string) {
    exists k :: 0 <= k < |FORBIDDEN| && Contains(Casefold(fold, key), FORBIDDEN[k])
  }

  /** `result[key] = value` on an insertion-ordered dictionary. */
  function Assign(entries: seq<Entry>, key: string, value: Json): seq<Entry> {
    if entries == [] then [Entry(key, value)]
    else if entries[0].key == key then [Entry(key, value)] + entries[1..]
    else [entries[0]] + Assign(entries[1..], key, value)
  }

  function Sanitize(fold: char -> string, v: Json, depth: nat): Json
    decreases v, 1
  {
    if depth > MAX_DEPTH then Text(TOO_DEEP)
    else match v
      case Dict(entries) => Dict(SanitizeEntries(fold, Take(entries, MAX_ITEMS), depth + 1))
      case List(items) => List(SanitizeItems(fold, Take(items, MAX_ITEMS), depth + 1))
      case Text(s) => Text(Take(s, MAX_TEXT))
      case Other(printed) => Text(Take(printed, MAX_TEXT))
      case _ => v
  }

  function SanitizeItems(fold: char -> string, items: seq<Json>, depth: nat): seq<Json>
    decreases items, 0
  {
    if items == [] then []
    else SanitizeItems(fold, items[..|items| - 1], depth) + [Sanitize(fold, items[|items| - 1], depth)]
  }

  function SanitizeValue(fold: char -> string, key: string, v: Json, depth: nat): Json
    decreases v, 2
  {
    if Sensitive(fold, key) then Text(REDACTED) else Sanitize(fold, v, depth)
  }

  function SanitizeEntries(fold: char -> string, entries: seq<Entry>, depth: nat): seq<Entry>
    decreases entries, 0
  {
    if entries == [] then []
    else
      var last := entries[|entries| - 1];
      Assign(SanitizeEntries(fold, entries[..|entries| - 1], depth), last.key,
        SanitizeValue(fold, last.key, last.value, depth))
  }

  /** `_safe_details`: a missing dictionary is an empty one. */
  function SafeDetails(fold: char -> string, details: Option<seq<Entry>>): Json {
    Sanitize(fold, Dict(if details.None? then [] else details.value), 0)
  }

  // ----- shape of the output -----

  ghost predicate UniqueKeys(entries: seq<Entry>) {
    forall i, j :: 0 <= i < j < |entries| ==> entries[i].key != entries[j].key
  }

  /** Clean values nest at most `room` containers deep, hold at most 100 items per
      container and 4000 characters per text, and hide every sensitive key. */
  ghost predicate Clean(fold: char -> string, v: Json, room: int)
    decreases v
  {
    if room <= 0 then v == Text(TOO_DEEP)
    else match v
      case Dict(entries) =>
        && |entries| <= MAX_ITEMS && UniqueKeys(entries)
        && forall i :: 0 <= i < |entries| ==>
             if Sensitive(fold, entries[i].key) then entries[i].value == Text(REDACTED)
             else Clean(fold, entries[i].value, room - 1)
      case List(items) =>
        |items| <= MAX_ITEMS && forall i :: 0 <= i < |items| ==> Clean(fold, items[i], room - 1)
      case Text(s) => |s| <= MAX_TEXT
      case Other(_) => false
      case _ => true
  }

  ghost predicate CleanEntries(fold: char -> string, entries: seq<Entry>, room: int) {
    && UniqueKeys(entries)
    && forall i :: 0 <= i < |entries| ==>
         if Sensitive(fold, entries[i].key) then entries[i].value == Text(REDACTED)
         else Clean(fold, entries[i].value, room)
  }

  lemma {:induction false} AssignKeepsClean(fold: char -> string, entries: seq<Entry>, key: string, value: Json,
                                            room: int)
    requires CleanEntries(fold, entries, room)
    requires if Sensitive(fold, key) then value == Text(REDACTED) else Clean(fold, value, room)
    ensures var r := Assign(entries, key, value);
      && CleanEntries(fold, r, room) && |r| <= |entries| + 1
      && forall i :: 0 <= i < |r| ==> r[i].key == key || exists j :: 0 <= j < |entries| && entries[j].key == r[i].key
  {
    if entries != [] && entries[0].key != key {
      var rest := entries[1..];
      AssignKeepsClean(fold, rest, key, value, room);
      var r := Assign(rest, key, value);
      forall i | 0 <= i < |r| ensures r[i].key != entries[0].key {
        if r[i].key != key {
          var j :| 0 <= j < |rest| && rest[j].key == r[i].key;
          assert rest[j] == entries[j + 1];
        }
      }
      forall i | 0 <= i < |r| && r[i].key != key
        ensures exists j :: 0 <= j < |entries| && entries[j].key == r[i].key
      {
        var j :| 0 <= j < |rest| && rest[j].key == r[i].key;
        assert entries[j + 1].key == r[i].key;
      }
    }
  }

  lemma {:induction false} AssignNew(entries: seq<Entry>, key: string, value: Json)
    requires forall i :: 0 <= i < |entries| ==> entries[i].key != key
    ensures Assign(entries, key, value) == entries + [Entry(key, value)]
  {
    if entries != [] {
      AssignNew(entries[1..], key, value);
    }
  }

  /** Whatever it is given, the sanitiser's output is clean. */
  lemma {:induction false} SanitizeCleans(fold: char -> string, v: Json, depth: nat)
    ensures Clean(fold, Sanitize(fold, v, depth), MAX_DEPTH + 1 - depth)
    decreases v, 1
  {
    if depth <= MAX_DEPTH {
      match v
      case Dict(entries) => EntriesClean(fold, Take(entries, MAX_ITEMS), depth + 1);
      case List(items) => ItemsClean(fold, Take(items, MAX_ITEMS), depth + 1);
      case _ =>
    }
  }

  lemma {:induction false} ItemsClean(fold: char -> string, items: seq<Json>, depth: nat)
    ensures var r := SanitizeItems(fold, items, depth);
      |r| == |items| && forall i :: 0 <= i < |r| ==> Clean(fold, r[i], MAX_DEPTH + 1 - depth)
    decreases items, 0
  {
    if items != [] {
      ItemsClean(fold, items[..|items| - 1], depth);
      SanitizeCleans(fold, items[|items| - 1], depth);
    }
  }

  lemma {:induction false} EntriesClean(fold: char -> string, entries: seq<Entry>, depth: nat)
    ensures var r := SanitizeEntries(fold, entries, depth);
      |r| <= |entries| && CleanEntries(fold, r, MAX_DEPTH + 1 - depth)
    decreases entries, 0
  {
    if entries != [] {
      var last := entries[|entries| - 1];
      EntriesClean(fold, entries[..|entries| - 1], depth);
      SanitizeCleans(fold, last.value, depth);
      AssignKeepsClean(fold, SanitizeEntries(fold, entries[..|entries| - 1], depth), last.key,
                       SanitizeValue(fold, last.key, last.value, depth), MAX_DEPTH + 1 - depth);
    }
  }

  // ----- what is kept -----

  /** `j` is the last entry with the key: the one whose value a dictionary has. */
  predicate LastOf(entries: seq<Entry>, j: int, key: string) {
    0 <= j < |entries| && entries[j].key == key && forall k :: j < k < |entries| ==> entries[k].key != key
  }

  /** The entry is what is shown of the last entry with its key. */
  ghost predicate ShownFrom(fold: char -> string, entries: seq<Entry>, e: Entry, room: int)
    decreases entries, 0
  {
    exists j :: LastOf(entries, j, e.key) &&
      if Sensitive(fold, e.key) then e.value == Text("[REDACTED]") else Shows(fold, entries[j].value, e.value, room)
  }

  /** The result keeps every key and every item among the first 100, in order, hides sensitive
      values and what is too deep, cuts texts, and changes nothing else. */
  ghost predicate Shows(fold: char -> string, v: Json, r: Json, room: int)
    decreases v, 1
  {
    if room <= 0 then r == Text("[MAX_DEPTH]")
    else match v
      case Dict(entries) => r.Dict? && ShowsEntries(fold, Take(entries, 100), r.entries, room - 1)
      case List(items) => r.List? && ShowsItems(fold, Take(items, 100), r.items, room - 1)
      case Text(s) => r == Text(Take(s, 4000))
      case Other(printed) => r == Text(Take(printed, 4000))
      case _ => r == v
  }

  ghost predicate ShowsEntries(fold: char -> string, entries: seq<Entry>, shown: seq<Entry>, room: int)
    decreases entries, 1
  {
    KeysOf(entries, shown) && forall e :: e in shown ==> ShownFrom(fold, entries, e, room)
  }

  ghost predicate ShowsItems(fold: char -> string, items: seq<Json>, shown: seq<Json>, room: int)
    decreases items, 0
  {
    |shown| == |items| && forall i :: 0 <= i < |items| ==> Shows(fold, items[i], shown[i], room)
  }

  ghost predicate HasKey(entries: seq<Entry>, key: string) { exists e :: e in entries && e.key == key }

  /** Every key has one entry, and distinct keys keep their places. */
  ghost predicate KeysOf(entries: seq<Entry>, shown: seq<Entry>) {
    && UniqueKeys(shown)
    && (forall e :: e in entries ==> HasKey(shown, e.key))
    && (UniqueKeys(entries) ==> SameKeys(entries, shown))
  }

  ghost predicate SameKeys(a: seq<Entry>, b: seq<Entry>) {
    |a| == |b| && forall i :: 0 <= i < |a| ==> a[i].key == b[i].key
  }

  lemma {:induction false} AssignEffect(entries: seq<Entry>, key: string, value: Json)
    requires UniqueKeys(entries)
    ensures var r := Assign(entries, key, value);
      && UniqueKeys(r) && Entry(key, value) in r
      && (forall e :: e in r ==> e == Entry(key, value) || (e in entries && e.key != key))
      && (forall e :: e in entries && e.key != key ==> e in r)
  {
    if entries != [] {
      var rest := entries[1..];
      assert entries == [entries[0]] + rest;
      if entries[0].key != key {
        AssignEffect(rest, key, value);
        assert forall e :: e in rest ==> e.key != entries[0].key;
      }
    }
  }

  /** Whatever it is given, the sanitiser shows it. */
  lemma {:induction false} SanitizeShows(fold: char -> string, v: Json, depth: nat)
    ensures Shows(fold, v, Sanitize(fold, v, depth), MAX_DEPTH + 1 - depth)
    decreases v, 2
  {
    if depth <= MAX_DEPTH {
      match v
      case Dict(entries) => EntriesShow(fold, Take(entries, MAX_ITEMS), depth + 1);
      case List(items) => ItemsShow(fold, Take(items, MAX_ITEMS), depth + 1);
      case _ =>
    }
  }

  lemma {:induction false} ItemsShow(fold: char -> string, items: seq<Json>, depth: nat)
    ensures ShowsItems(fold, items, SanitizeItems(fold, items, depth), MAX_DEPTH + 1 - depth)
    decreases items, 0
  {
    if items != [] {
      ItemsShow(fold, items[..|items| - 1], depth);
      SanitizeShows(fold, items[|items| - 1], depth);
    }
  }

  lemma {:induction false} EntriesShow(fold: char -> string, entries: seq<Entry>, depth: nat)
    ensures ShowsEntries(fold, entries, SanitizeEntries(fold, entries, depth), MAX_DEPTH + 1 - depth)
    decreases entries, 0
  {
    if entries != [] {
      var front, last := entries[..|entries| - 1], entries[|entries| - 1];
      EntriesShow(fold, front, depth);
      SanitizeShows(fold, last.value, depth);
      var shown, value := SanitizeEntries(fold, front, depth), SanitizeValue(fold, last.key, last.value, depth);
      assert front + [last] == entries;
      KeysStep(front, last, shown, value);
      LastShown(fold, front, last, value, MAX_DEPTH + 1 - depth);
      forall e | e in Assign(shown, last.key, value) ensures ShownFrom(fold, entries, e, MAX_DEPTH + 1 - depth) {
        AssignEffect(shown, last.key, value);
        if e != Entry(last.key, value) { StillShown(fold, front, last, e, MAX_DEPTH + 1 - depth); }
      }
    }
  }

  lemma LastShown(fold: char -> string, front: seq<Entry>, last: Entry, value: Json, room: int)
    requires if Sensitive(fold, last.key) then value == Text(REDACTED) else Shows(fold, last.value, value, room)
    ensures ShownFrom(fold, front + [last], Entry(last.key, value), room)
  {
    assert LastOf(front + [last], |front|, last.key);
  }

  lemma StillShown(fold: char -> string, front: seq<Entry>, last: Entry, e: Entry, room: int)
    requires ShownFrom(fold, front, e, room) && e.key != last.key
    ensures ShownFrom(fold, front + [last], e, room)
  {
    var j :| LastOf(front, j, e.key) &&
      if Sensitive(fold, e.key) then e.value == Text(REDACTED) else Shows(fold, front[j].value, e.value, room);
    assert LastOf(front + [last], j, e.key);
  }

  lemma KeysStep(front: seq<Entry>, last: Entry, shown: seq<Entry>, value: Json)
    requires KeysOf(front, shown)
    ensures KeysOf(front + [last], Assign(shown, last.key, value))
  {
    var r, all := Assign(shown, last.key, value), front + [last];
    AssignEffect(shown, last.key, value);
    forall e | e in all ensures HasKey(r, e.key) {
      if e.key != last.key {
        var f :| f in shown && f.key == e.key;
        assert f in r;
      }
    }
    if UniqueKeys(all) {
      assert all[|front|] == last && forall i :: 0 <= i < |front| ==> all[i] == front[i];
      AssignNew(shown, last.key, value);
    }
  }

  /** A clean value passes through unchanged. */
  lemma {:induction false} CleanIsFixed(fold: char -> string, v: Json, depth: nat)
    requires Clean(fold, v, MAX_DEPTH + 1 - depth)
    ensures Sanitize(fold, v, depth) == v
    decreases v, 1
  {
    if depth <= MAX_DEPTH {
      match v
      case Dict(entries) => EntriesFixed(fold, entries, depth + 1);
      case List(items) => ItemsFixed(fold, items, depth + 1);
      case _ =>
    }
  }

  lemma {:induction false} ItemsFixed(fold: char -> string, items: seq<Json>, depth: nat)
    requires forall i :: 0 <= i < |items| ==> Clean(fold, items[i], MAX_DEPTH + 1 - depth)
    ensures SanitizeItems(fold, items, depth) == items
    decreases items, 0
  {
    if items != [] {
      ItemsFixed(fold, items[..|items| - 1], depth);
      CleanIsFixed(fold, items[|items| - 1], depth);
    }
  }

  lemma {:induction false} EntriesFixed(fold: char -> string, entries: seq<Entry>, depth: nat)
    requires CleanEntries(fold, entries, MAX_DEPTH + 1 - depth)
    ensures SanitizeEntries(fold, entries, depth) == entries
    decreases entries, 0
  {
    if entries != [] {
      var last := entries[|entries| - 1];
      EntriesFixed(fold, entries[..|entries| - 1], depth);
      if !Sensitive(fold, last.key) { CleanIsFixed(fold, last.value, depth); }
      AssignNew(entries[..|entries| - 1], last.key, last.value);
    }
  }

  /** The values the sanitiser leaves alone are exactly the clean ones, so it is idempotent. */
  lemma FixedIffClean(fold: char -> string, v: Json)
    ensures Sanitize(fold, v, 0) == v <==> Clean(fold, v, MAX_DEPTH + 1)
    ensures Sanitize(fold, Sanitize(fold, v, 0), 0) == Sanitize(fold, v, 0)
  {
    SanitizeCleans(fold, v, 0);
    CleanIsFixed(fold, Sanitize(fold, v, 0), 0);
    if Clean(fold, v, MAX_DEPTH + 1) { CleanIsFixed(fold, v, 0); }
  }
}
