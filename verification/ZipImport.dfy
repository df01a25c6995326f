/**
 Reading the names of an uploaded ZIP: the safety loop over its entries, and the map
 from logical names to stored names after a common top directory is stripped.
 */
module ZipImport {
  import opened Basics
  import opened Strings

  datatype Info = Info(filename: string, encrypted: bool, symlink: bool, size: nat)

  // ----- paths -----

  function Slashed(name: string): string {
    if name == "" then "" else [if name[0] == '\\' then '/' else name[0]] + Slashed(name[1..])
  }

  /** Path components: empty and "." segments are dropped. */
  function Components(segments: seq<string>): seq<string> {
    if segments == [] then []
    else (if segments[0] == "" || segments[0] == "." then [] else [segments[0]]) + Components(segments[1..])
  }

  /** `PurePosixPath(name).parts` of a relative path. */
  function Parts(name: string): seq<string> { Components(Split(name, '/')) }

  predicate Printable(name: string) { forall c :: c in name ==> c as int >= 32 }

  /** The components of a member that is safe to read, or nothing. */
  function SafeMember(name: string): Option<seq<string>> {
    if name == "" || !Printable(name) then None
    else
      var path := Slashed(name);
      var parts := Parts(path);
      if "/" <= path || ".." in parts || parts == [] then None else Some(parts)
  }

  ghost predicate ProperParts(parts: seq<string>) {
    parts != [] && forall p :: p in parts ==> p != "" && p != "." && p != ".." && '/' !in p
  }

  lemma {:induction false} ComponentsProper(segments: seq<string>)
    ensures forall p :: p in Components(segments) ==> p in segments && p != "" && p != "."
  {
    if segments != [] { ComponentsProper(segments[1..]); }
  }

  lemma {:induction false} ComponentsKeep(segments: seq<string>)
    requires forall p :: p in segments ==> p != "" && p != "."
    ensures Components(segments) == segments
  {
    if segments != [] {
      assert segments[0] in segments && forall p :: p in segments[1..] ==> p in segments;
      ComponentsKeep(segments[1..]);
      assert segments == [segments[0]] + segments[1..];
    }
  }

  lemma SafeMemberIsProper(name: string)
    ensures SafeMember(name).Some? ==> ProperParts(SafeMember(name).value)
  {
    var segments := Split(Slashed(name), '/');
    ComponentsProper(segments);
    SplitPieces(Slashed(name), '/');
  }

  /** `str(path)` parses back to the same components. */
  lemma StoredNameParses(parts: seq<string>)
    requires ProperParts(parts)
    ensures Parts(Join(parts, '/')) == parts
  {
    SplitJoin(parts, '/');
    ComponentsKeep(parts);
  }

  /** An accepted member is relative, goes nowhere up and names something; its components are
      what is between the slashes, in order, without empty and "." segments. */
  lemma SafeMemberExactly(name: string)
    ensures var segments := Split(Slashed(name), '/');
      && (SafeMember(name).Some? <==>
            && name != "" && name[0] != '/' && name[0] != '\\' && (forall c :: c in name ==> c as int >= 32)
            && ".." !in segments && exists p :: p in segments && p != "" && p != ".")
      && (SafeMember(name).Some? ==> SafeMember(name).value == Components(segments))
  {
    var path := Slashed(name);
    var segments := Split(path, '/');
    ComponentsProper(segments);
    ComponentsHave(segments);
    assert name != "" ==> path[0] == (if name[0] == '\\' then '/' else name[0]);
    assert name != "" ==> ("/" <= path <==> path[0] == '/');
    assert Components(segments) != [] ==> Components(segments)[0] in Components(segments);
  }

  lemma {:induction false} ComponentsHave(segments: seq<string>)
    ensures forall p :: p in segments && p != "" && p != "." ==> p in Components(segments)
  {
    if segments != [] { ComponentsHave(segments[1..]); }
  }

  lemma {:induction false} ComponentsConcat(a: seq<string>, b: seq<string>)
    ensures Components(a + b) == Components(a) + Components(b)
  {
    if a == [] {
      assert a + b == b;
    } else {
      assert (a + b)[0] == a[0] && (a + b)[1..] == a[1..] + b;
      ComponentsConcat(a[1..], b);
    }
  }

  // ----- the entry loop -----

  predicate IsDir(info: Info) { info.filename != "" && info.filename[|info.filename| - 1] == '/' }

  predicate Admissible(info: Info) { SafeMember(info.filename).Some? && !info.encrypted && !info.symlink }

  /** `str(path)` of a safe member. */
  function StoredName(info: Info): string {
    var path := SafeMember(info.filename);
    if path.None? || path.value == [] then "" else Join(path.value, '/')
  }

  /** Stored names of the file entries, in order. */
  function FileNames(infos: seq<Info>): seq<string> {
    if infos == [] then []
    else
      var last := infos[|infos| - 1];
      FileNames(infos[..|infos| - 1]) + if IsDir(last) then [] else [StoredName(last)]
  }

  /** `names` are the paths of the file entries, in order. */
  ghost predicate Named(infos: seq<Info>, names: seq<string>) {
    if infos == [] then names == []
    else
      var front, last := infos[..|infos| - 1], infos[|infos| - 1];
      if last.filename != "" && last.filename[|last.filename| - 1] == '/' then Named(front, names)
      else
        && names != [] && Named(front, names[..|names| - 1])
        && SafeMember(last.filename).Some? && SafeMember(last.filename).value != []
        && names[|names| - 1] == Join(SafeMember(last.filename).value, '/')
  }

  function TotalSize(infos: seq<Info>): nat {
    if infos == [] then 0 else TotalSize(infos[..|infos| - 1]) + infos[|infos| - 1].size
  }

  function Folds(fold: char -> string, names: seq<string>): (s: set<string>) {
    set k | 0 <= k < |names| :: Casefold(fold, names[k])
  }

  ghost predicate FoldDistinct(fold: char -> string, names: seq<string>) {
    forall i, j :: 0 <= i < j < |names| ==> Casefold(fold, names[i]) != Casefold(fold, names[j])
  }

  predicate AllAdmissible(infos: seq<Info>) { forall x :: x in infos ==> Admissible(x) }

  /** What an archive must satisfy, apart from the number of its entries. */
  ghost predicate Passes(infos: seq<Info>, maxBytes: int, fold: char -> string) {
    && AllAdmissible(infos)
    && (infos == [] || TotalSize(infos) <= maxBytes)
    && FoldDistinct(fold, FileNames(infos))
  }

  /** What an archive must satisfy. */
  ghost predicate Accepted(infos: seq<Info>, maxBytes: int, maxEntries: int, fold: char -> string) {
    0 < |infos| <= maxEntries && Passes(infos, maxBytes, fold)
  }

  lemma AdmissibleStep(infos: seq<Info>, x: Info)
    ensures AllAdmissible(infos + [x]) <==> AllAdmissible(infos) && Admissible(x)
  {
  }

  lemma TotalsStep(infos: seq<Info>, x: Info)
    ensures TotalSize(infos + [x]) == TotalSize(infos) + x.size
    ensures FileNames(infos + [x]) == FileNames(infos) + if IsDir(x) then [] else [StoredName(x)]
  {
  }

  /** One more entry passes exactly under the loop's four tests. */
  lemma PassesStep(infos: seq<Info>, x: Info, maxBytes: int, fold: char -> string)
    requires Passes(infos, maxBytes, fold)
    ensures Passes(infos + [x], maxBytes, fold) <==>
      && Admissible(x) && TotalSize(infos) + x.size <= maxBytes
      && (IsDir(x) || Casefold(fold, StoredName(x)) !in Folds(fold, FileNames(infos)))
  {
    AdmissibleStep(infos, x);
    TotalsStep(infos, x);
    if !IsDir(x) { DistinctStep(fold, FileNames(infos), StoredName(x)); }
  }

  lemma DistinctStep(fold: char -> string, names: seq<string>, name: string)
    requires FoldDistinct(fold, names)
    ensures FoldDistinct(fold, names + [name]) <==> Casefold(fold, name) !in Folds(fold, names)
  {
    var all := names + [name];
    assert all[|names|] == name;
    if Casefold(fold, name) in Folds(fold, names) {
      var k :| 0 <= k < |names| && Casefold(fold, names[k]) == Casefold(fold, name);
      assert all[k] == names[k];
    }
  }

  /** A prefix that fails makes the whole archive fail. */
  lemma {:induction false} PassesPrefix(infos: seq<Info>, n: nat, maxBytes: int, fold: char -> string)
    requires n <= |infos| && Passes(infos, maxBytes, fold)
    ensures Passes(infos[..n], maxBytes, fold)
    decreases |infos|
  {
    if n == |infos| {
      assert infos[..n] == infos;
    } else {
      var m := |infos| - 1;
      assert FileNames(infos[..m]) <= FileNames(infos);
      PassesPrefix(infos[..m], n, maxBytes, fold);
      assert infos[..m][..n] == infos[..n];
    }
  }

  /** The state of the loop before entry `i`. */
  ghost predicate ReadTo(infos: seq<Info>, i: int, maxBytes: int, fold: char -> string, total: int, names: seq<string>,
                         seen: set<string>) {
    && 0 <= i <= |infos| && Passes(infos[..i], maxBytes, fold)
    && total == TotalSize(infos[..i]) && names == FileNames(infos[..i]) && seen == Folds(fold, names)
  }

  /** Entry `i` decides: the archive passes only if the entries up to it do. */
  lemma EntryDecides(infos: seq<Info>, i: nat, maxBytes: int, fold: char -> string, total: int, names: seq<string>,
                     seen: set<string>)
    requires i < |infos| && ReadTo(infos, i, maxBytes, fold, total, names, seen)
    ensures var x := infos[i];
      var name := StoredName(x);
      if Admissible(x) && total + x.size <= maxBytes && (IsDir(x) || Casefold(fold, name) !in seen)
      then ReadTo(infos, i + 1, maxBytes, fold, total + x.size, if IsDir(x) then names else names + [name],
                  if IsDir(x) then seen else seen + {Casefold(fold, name)})
      else !Passes(infos, maxBytes, fold)
  {
    PassesStep(infos[..i], infos[i], maxBytes, fold);
    TotalsStep(infos[..i], infos[i]);
    FoldsStep(fold, names, StoredName(infos[i]));
    assert infos[..i + 1] == infos[..i] + [infos[i]];
    if Passes(infos, maxBytes, fold) { PassesPrefix(infos, i + 1, maxBytes, fold); }
  }

  /** The loop accepts an archive exactly when it has between one and `maxEntries`
      entries, every entry is admissible, the sizes sum to at most `maxBytes`, and no two
      file names agree after case folding; it then yields the file names in order. */
  method ReadEntries(infos: seq<Info>, maxBytes: int, maxEntries: int, fold: char -> string)
    returns (r: Result<seq<string>>)
    ensures r.Ok? <==> Accepted(infos, maxBytes, maxEntries, fold)
    ensures r.Ok? ==> r.value == FileNames(infos) && Named(infos, r.value)
  {
    if infos == [] || |infos| > maxEntries { return Err("ZIP contains too many files or is empty"); }
    var total := 0;
    var safeNames: seq<string> := [];
    var seen: set<string> := {};
    var i := 0;
    while i < |infos|
      invariant 0 <= i <= |infos| && ReadTo(infos, i, maxBytes, fold, total, safeNames, seen)
    {
      var info := infos[i];
      EntryDecides(infos, i, maxBytes, fold, total, safeNames, seen);
      if SafeMember(info.filename).None? { return Err("ZIP contains an unsafe file path"); }
      if info.encrypted { return Err("Encrypted ZIP files are not supported"); }
      if info.symlink { return Err("ZIP symbolic links are not supported"); }
      total := total + info.size;
      if total > maxBytes { return Err("ZIP uncompressed size exceeds the configured limit"); }
      if !IsDir(info) {
        var name := StoredName(info);
        var normalized := Casefold(fold, name);
        if normalized in seen { return Err("ZIP contains duplicate or case-colliding file paths"); }
        seen := seen + {normalized};
        safeNames := safeNames + [name];
      }
      i := i + 1;
    }
    assert infos[..i] == infos;
    FileNamesNamed(infos);
    return Ok(safeNames);
  }

  lemma {:induction false} FileNamesNamed(infos: seq<Info>)
    requires AllAdmissible(infos)
    ensures Named(infos, FileNames(infos))
  {
    if infos != [] {
      var front, last := infos[..|infos| - 1], infos[|infos| - 1];
      assert infos == front + [last];
      AdmissibleStep(front, last);
      FileNamesNamed(front);
      TotalsStep(front, last);
      SafeMemberIsProper(last.filename);
      NamedSnoc(front, last, FileNames(front));
    }
  }

  lemma NamedSnoc(front: seq<Info>, last: Info, names: seq<string>)
    requires Named(front, names) && SafeMember(last.filename).Some? && SafeMember(last.filename).value != []
    ensures Named(front + [last], names + if IsDir(last) then [] else [StoredName(last)])
  {
    var infos := front + [last];
    assert infos[..|infos| - 1] == front && infos[|infos| - 1] == last;
    if IsDir(last) {
      assert names + [] == names;
    } else {
      var all := names + [StoredName(last)];
      assert all[..|all| - 1] == names && all[|all| - 1] == StoredName(last);
    }
  }

  lemma FoldsStep(fold: char -> string, names: seq<string>, name: string)
    ensures Folds(fold, names + [name]) == Folds(fold, names) + {Casefold(fold, name)}
  {
    var all := names + [name];
    assert all[|names|] == name && forall k :: 0 <= k < |names| ==> all[k] == names[k];
    forall f | f in Folds(fold, names) + {Casefold(fold, name)} ensures f in Folds(fold, all) {
      if f != Casefold(fold, name) {
        var k :| 0 <= k < |names| && Casefold(fold, names[k]) == f;
        assert all[k] == names[k];
      }
    }
  }

  // ----- logical names -----

  function FirstPart(name: string): string {
    var parts := Parts(name);
    if parts == [] then "" else parts[0]
  }

  /** Every stored name is the join of at least one proper component. */
  ghost predicate Stored(names: seq<string>) {
    forall name :: name in names ==> ProperParts(Parts(name)) && name == Join(Parts(name), '/')
  }

  lemma {:induction false} FileNamesStored(infos: seq<Info>)
    requires AllAdmissible(infos)
    ensures Stored(FileNames(infos))
  {
    if infos != [] {
      var front, last := infos[..|infos| - 1], infos[|infos| - 1];
      assert infos == front + [last];
      AdmissibleStep(front, last);
      FileNamesStored(front);
      TotalsStep(front, last);
      SafeMemberIsProper(last.filename);
      StoredNameParses(SafeMember(last.filename).value);
    }
  }

  function FirstParts(names: seq<string>): set<string> { set name | name in names :: FirstPart(name) }

  predicate AllNested(names: seq<string>) { forall name :: name in names ==> '/' in name }

  /** The prefix that is stripped: the common top directory with its slash, or nothing. */
  function Prefix(names: seq<string>): string {
    if |FirstParts(names)| == 1 && AllNested(names) && names != [] then FirstPart(names[0]) + "/" else ""
  }

  lemma OneElement<T>(s: set<T>, a: T, b: T)
    requires |s| == 1 && a in s && b in s
    ensures a == b
  {
    assert |s - {a}| == 0;
  }

  lemma NestedName(name: string)
    requires ProperParts(Parts(name)) && name == Join(Parts(name), '/') && '/' in name
    ensures FirstPart(name) + "/" < name
  {
    var parts := Parts(name);
    assert parts[0] in parts;
    assert |parts| > 1 && forall p :: p in parts[1..] ==> p in parts;
    RestNonEmpty(parts[1..]);
    assert name == parts[0] + "/" + Join(parts[1..], '/');
  }

  /** Stripping leaves something of every name, and only the common prefix is lost. */
  lemma PrefixStrips(names: seq<string>, name: string)
    requires Stored(names) && name in names
    ensures Prefix(names) < name
  {
    if |FirstParts(names)| == 1 && AllNested(names) {
      assert names[0] in names;
      assert FirstPart(names[0]) in FirstParts(names) && FirstPart(name) in FirstParts(names);
      OneElement(FirstParts(names), FirstPart(name), FirstPart(names[0]));
      NestedName(name);
    } else {
      RestNonEmpty(Parts(name));
    }
  }

  lemma RestNonEmpty(parts: seq<string>)
    requires parts != [] && forall p :: p in parts ==> p != ""
    ensures Join(parts, '/') != ""
  {
    assert parts[0] in parts;
  }

  /** Every name is under the directory `top`. */
  ghost predicate CommonTop(names: seq<string>, top: string) {
    names != [] && '/' !in top && forall name :: name in names ==> top + "/" < name
  }

  lemma TopIsFirst(name: string, top: string)
    requires ProperParts(Parts(name)) && name == Join(Parts(name), '/') && '/' !in top && top + "/" < name
    ensures FirstPart(name) == top
  {
    var parts := Parts(name);
    assert parts[0] in parts;
    IndexOfFirst(top, '/', name[|top| + 1..]);
    assert name == top + "/" + name[|top| + 1..] && name[|top|] == '/';
    assert |parts| > 1;
    IndexOfFirst(parts[0], '/', Join(parts[1..], '/'));
    assert name[..|top|] == top && name[..|parts[0]|] == parts[0];
  }

  /** What is stripped is the common top directory with its slash, if there is one. */
  lemma PrefixExactly(names: seq<string>)
    requires Stored(names)
    ensures forall top :: CommonTop(names, top) ==> Prefix(names) == top + "/"
    ensures (forall top :: !CommonTop(names, top)) ==> Prefix(names) == ""
  {
    forall top | CommonTop(names, top) ensures Prefix(names) == top + "/" {
      forall name | name in names ensures FirstPart(name) == top && '/' in name {
        TopIsFirst(name, top);
        assert (top + "/")[|top|] == '/';
      }
      assert names[0] in names;
      assert FirstParts(names) == {top};
    }
    if |FirstParts(names)| == 1 && AllNested(names) && names != [] {
      var top := FirstPart(names[0]);
      assert names[0] in names && Parts(names[0])[0] in Parts(names[0]);
      forall name | name in names ensures top + "/" < name { PrefixStrips(names, name); }
      assert CommonTop(names, top);
    }
  }

  /** The keys are the names without their first `cut` characters, folded, each with its name. */
  ghost predicate Keyed(fold: char -> string, names: seq<string>, cut: nat, pairs: map<string, string>) {
    && |pairs| == |names|
    && (forall name :: name in names ==>
          && cut < |name| && Casefold(fold, name[cut..]) in pairs && pairs[Casefold(fold, name[cut..])] == name)
    && forall key :: key in pairs ==> pairs[key] in names && key == Casefold(fold, pairs[key][cut..])
  }

  /** The keys are what follows the common top directory; the whole names, if there is none. */
  ghost predicate MapsNames(fold: char -> string, names: seq<string>, pairs: map<string, string>) {
    && (forall top :: CommonTop(names, top) ==> Keyed(fold, names, |top| + 1, pairs))
    && ((forall top :: !CommonTop(names, top)) ==> Keyed(fold, names, 0, pairs))
  }

  lemma BijectiveKeyed(fold: char -> string, names: seq<string>, pairs: map<string, string>)
    requires Stored(names) && Bijective(LogicalKeys(fold, names), names, |names|, pairs)
    ensures Keyed(fold, names, |Prefix(names)|, pairs)
  {
    forall name | name in names ensures |Prefix(names)| < |name| { PrefixStrips(names, name); }
    var keys := LogicalKeys(fold, names);
    forall name | name in names
      ensures var key := Casefold(fold, name[|Prefix(names)|..]); key in pairs && pairs[key] == name
    {
      var k :| 0 <= k < |names| && names[k] == name;
      assert keys[k] == Casefold(fold, name[|Prefix(names)|..]);
    }
    forall key | key in pairs
      ensures pairs[key] in names && key == Casefold(fold, pairs[key][|Prefix(names)|..])
    {
      var k :| 0 <= k < |names| && keys[k] == key;
      assert pairs[keys[k]] == names[k];
    }
  }

  lemma BijectiveMaps(fold: char -> string, names: seq<string>, pairs: map<string, string>)
    requires Stored(names) && Bijective(LogicalKeys(fold, names), names, |names|, pairs)
    ensures MapsNames(fold, names, pairs)
  {
    BijectiveKeyed(fold, names, pairs);
    PrefixExactly(names);
    var p := Prefix(names);
    forall top | CommonTop(names, top) ensures Keyed(fold, names, |top| + 1, pairs) {
      assert p == top + "/";
      assert |p| == |top| + 1;
    }
  }

  /** The logical name of a stored name. */
  function LogicalKey(fold: char -> string, names: seq<string>, name: string): string {
    var p := Prefix(names);
    if |p| <= |name| then Casefold(fold, name[|p|..]) else ""
  }

  /** Logical names determine stored names: folding distributes over the prefix, so equal
      logical names would be equal stored names after folding. */
  lemma KeysDistinct(fold: char -> string, names: seq<string>, i: nat, j: nat)
    requires Stored(names) && FoldDistinct(fold, names) && i < j < |names|
    ensures LogicalKey(fold, names, names[i]) != LogicalKey(fold, names, names[j])
  {
    FoldedName(fold, names, names[i]);
    FoldedName(fold, names, names[j]);
  }

  function LogicalKeys(fold: char -> string, names: seq<string>): seq<string> {
    seq(|names|, k requires 0 <= k < |names| => LogicalKey(fold, names, names[k]))
  }

  /** `pairs` maps the first `n` keys to the values at the same positions, one to one. */
  ghost predicate Bijective(keys: seq<string>, values: seq<string>, n: nat, pairs: map<string, string>) {
    && |pairs| == n <= |keys| == |values|
    && (forall k :: 0 <= k < n ==> keys[k] in pairs && pairs[keys[k]] == values[k])
    && (forall key :: key in pairs ==> exists k :: 0 <= k < n && keys[k] == key)
  }

  lemma OneMorePair(keys: seq<string>, values: seq<string>, n: nat, pairs: map<string, string>)
    requires Bijective(keys, values, n, pairs) && n < |keys|
    requires forall k :: 0 <= k < n ==> keys[k] != keys[n]
    ensures Bijective(keys, values, n + 1, pairs[keys[n] := values[n]])
  {
  }

  /** For the names of an archive that passed the loop, the dictionary of logical names is
      a bijection onto the stored names, so the second duplicate check never fires. */
  method Logical(names: seq<string>, fold: char -> string) returns (r: Result<map<string, string>>)
    requires Stored(names) && FoldDistinct(fold, names)
    ensures r.Ok? && Bijective(LogicalKeys(fold, names), names, |names|, r.value)
    ensures MapsNames(fold, names, r.value)
  {
    var first := FirstParts(names);
    var prefix := "";
    if |first| == 1 && AllNested(names) {
      var top :| top in first;
      assert names != [] && FirstPart(names[0]) in first;
      OneElement(first, top, FirstPart(names[0]));
      prefix := top + "/";
    }
    ghost var keys := LogicalKeys(fold, names);
    var logical: map<string, string> := map[];
    var i := 0;
    while i < |names|
      invariant 0 <= i <= |names| && Bijective(keys, names, i, logical)
    {
      PrefixStrips(names, names[i]);
      forall k | 0 <= k < i ensures keys[k] != keys[i] { KeysDistinct(fold, names, k, i); }
      OneMorePair(keys, names, i, logical);
      if names[i][|prefix|..] != "" { logical := logical[Casefold(fold, names[i][|prefix|..]) := names[i]]; }
      i := i + 1;
    }
    if |logical| != |names| { return Err("ZIP contains duplicate logical file paths"); }
    BijectiveMaps(fold, names, logical);
    return Ok(logical);
  }

  /** The whole import of names: the first check is the only one that can refuse. */
  method ImportNames(infos: seq<Info>, maxBytes: int, maxEntries: int, fold: char -> string)
    returns (r: Result<map<string, string>>)
    ensures r.Ok? <==> Accepted(infos, maxBytes, maxEntries, fold)
    ensures r.Ok? ==> exists names :: Named(infos, names) && MapsNames(fold, names, r.value)
  {
    var names := ReadEntries(infos, maxBytes, maxEntries, fold);
    if names.Err? { return Err(names.reason); }
    FileNamesStored(infos);
    r := Logical(names.value, fold);
  }

  /** `candidate` finds a wanted name exactly when some stored name folds like it, under the
      common top directory if there is one; and it finds that stored name. */
  lemma CandidateFound(fold: char -> string, names: seq<string>, logical: map<string, string>, wanted: string)
    requires MapsNames(fold, names, logical)
    ensures forall top :: CommonTop(names, top) ==> Finds(fold, names, logical, wanted, top + "/" + wanted)
    ensures (forall top :: !CommonTop(names, top)) ==> Finds(fold, names, logical, wanted, wanted)
  {
    forall top | CommonTop(names, top) ensures Finds(fold, names, logical, wanted, top + "/" + wanted) {
      KeyedFinds(fold, names, top + "/", logical, wanted);
    }
    if forall top :: !CommonTop(names, top) { WholeFinds(fold, names, logical, wanted); }
  }

  lemma WholeFinds(fold: char -> string, names: seq<string>, logical: map<string, string>, wanted: string)
    requires Keyed(fold, names, 0, logical)
    ensures Finds(fold, names, logical, wanted, wanted)
  {
    var p := "";
    KeyedFinds(fold, names, p, logical, wanted);
    assert p + wanted == wanted;
  }

  /** The key `wanted` finds the stored name that folds like `path`, if there is one. */
  ghost predicate Finds(fold: char -> string, names: seq<string>, logical: map<string, string>, wanted: string,
                        path: string) {
    var key := Casefold(fold, wanted);
    && (key in logical <==> exists name :: name in names && Casefold(fold, name) == Casefold(fold, path))
    && (key in logical ==> logical[key] in names && Casefold(fold, logical[key]) == Casefold(fold, path))
  }

  lemma KeyedFinds(fold: char -> string, names: seq<string>, p: string, logical: map<string, string>, wanted: string)
    requires Keyed(fold, names, |p|, logical) && forall name :: name in names ==> p <= name
    ensures Finds(fold, names, logical, wanted, p + wanted)
  {
    var key := Casefold(fold, wanted);
    CasefoldConcat(fold, p, wanted);
    forall name | name in names
      ensures Casefold(fold, name) == Casefold(fold, p + wanted) <==> Casefold(fold, name[|p|..]) == key
    {
      assert p + name[|p|..] == name;
      CasefoldConcat(fold, p, name[|p|..]);
      Cancel(Casefold(fold, p), Casefold(fold, name[|p|..]), key);
    }
    if key in logical { assert Casefold(fold, logical[key]) == Casefold(fold, p + wanted); }
  }

  lemma FoldedName(fold: char -> string, names: seq<string>, name: string)
    requires Stored(names) && name in names
    ensures Casefold(fold, name) == Casefold(fold, Prefix(names)) + LogicalKey(fold, names, name)
  {
    var p := Prefix(names);
    PrefixStrips(names, name);
    assert p + name[|p|..] == name;
    CasefoldConcat(fold, p, name[|p|..]);
  }

  lemma Cancel(p: string, a: string, b: string)
    ensures p + a == p + b <==> a == b
  {
    assert (p + a)[|p|..] == a && (p + b)[|p|..] == b;
  }
}
