/** Directory trees, the relative paths of their files, and the listing of a recursive walk. */
module Trees {
  import opened Optional
  import opened Bytes
  import opened PathOrder

  datatype Node = Directory(entries: seq<Entry>) | Regular(bytes: Text) | Other

  /** Entries stand in the order in which the directory stream delivers them. */
  datatype Entry = Entry(name: string, node: Node)

  const COMMIT_MARKER := ".system-settings-common-commit"
  const DIGEST_MARKER := ".system-settings-common-sha256"
  const PATH_MAX := 4096

  predicate Marker(path: string) {
    path == COMMIT_MARKER || path == DIGEST_MARKER
  }

  predicate Dot(name: string) {
    name == "." || name == ".."
  }

  // ----- Paths

  /** The position of the first slash, or the length. */
  function Slash(path: string): (i: nat)
    ensures i <= |path| && '/' !in path[..i]
    ensures i < |path| ==> path[i] == '/'
  {
    if path == [] || path[0] == '/' then 0
    else
      var i := 1 + Slash(path[1..]);
      assert path[..i] == [path[0]] + path[1..][..i - 1];
      i
  }

  function Child(relative: string, name: string): string {
    if relative == "" then name else relative + "/" + name
  }

  /** The path below a directory, for paths that lead there. */
  function Below(relative: string, path: string): Option<string> {
    if relative == "" then Some(path)
    else if |path| > |relative| && path[..|relative| + 1] == relative + "/" then
      Some(path[|relative| + 1..])
    else None
  }

  lemma BelowChild(relative: string, path: string)
    ensures Below(relative, Child(relative, path)) == Some(path)
    ensures forall q :: Below(relative, path) == Some(q) ==> path == Child(relative, q)
  {
    var child := Child(relative, path);
    if relative != "" {
      assert child[..|relative| + 1] == relative + "/";
      if Below(relative, path).Some? {
        assert path == path[..|relative| + 1] + path[|relative| + 1..];
      }
    }
  }

  lemma SlashOfJoin(name: string, rest: string)
    requires '/' !in name
    ensures Slash(name) == |name|
    ensures Slash(name + "/" + rest) == |name|
  {
    assert (name + "/" + rest)[|name|] == '/';
  }

  lemma InDirectory(relative: string, name: string, rest: string)
    requires name != ""
    ensures Child(relative, name + "/" + rest) == Child(Child(relative, name), rest)
    ensures Below(Child(relative, name), Child(relative, name + "/" + rest)) == Some(rest)
  {
    if relative != "" {
      assert relative + "/" + (name + "/" + rest) == relative + "/" + name + "/" + rest;
    }
    BelowChild(Child(relative, name), rest);
  }

  /** The paths below a named directory are those whose first component is its name. */
  lemma BelowDirectory(relative: string, name: string, path: string)
    requires name != "" && '/' !in name
    ensures
      var child := Child(relative, name);
      Below(child, path).Some? ==>
        && Below(relative, path) == Some(name + "/" + Below(child, path).value)
        && Slash(name + "/" + Below(child, path).value) == |name|
  {
    var child := Child(relative, name);
    BelowChild(child, path);
    if Below(child, path).Some? {
      var rest := Below(child, path).value;
      InDirectory(relative, name, rest);
      BelowChild(relative, name + "/" + rest);
      SlashOfJoin(name, rest);
    }
  }

  lemma DirectoryHolds(relative: string, name: string, path: string)
    requires name != "" && Below(relative, path).Some?
    ensures
      var q := Below(relative, path).value;
      q[..Slash(q)] == name && Slash(q) < |q| ==>
        Below(Child(relative, name), path) == Some(q[Slash(q) + 1..])
  {
    var q := Below(relative, path).value;
    var i := Slash(q);
    BelowChild(relative, path);
    if q[..i] == name && i < |q| {
      assert q == q[..i] + [q[i]] + q[i + 1..];
      assert q == name + "/" + q[i + 1..];
      InDirectory(relative, name, q[i + 1..]);
    }
  }

  // ----- What a tree defines

  function Lookup(entries: seq<Entry>, name: string): Option<Node> {
    if entries == [] then None
    else if entries[0].name == name && !Dot(name) then Some(entries[0].node)
    else Lookup(entries[1..], name)
  }

  /** The bytes of the regular file that a relative path names. */
  function FileAt(entries: seq<Entry>, path: string): Option<Text>
    decreases |path|
  {
    var i := Slash(path);
    var node := Lookup(entries, path[..i]);
    if node.None? then None
    else if i == |path| then
      if node.value.Regular? then Some(node.value.bytes) else None
    else if node.value.Directory? then FileAt(node.value.entries, path[i + 1..])
    else None
  }

  /** Both trees map the same paths to the same bytes, the two markers aside. */
  ghost predicate SameFiles(left: seq<Entry>, right: seq<Entry>) {
    forall path: string | path != COMMIT_MARKER && path != DIGEST_MARKER ::
      FileAt(left, path) == FileAt(right, path)
  }

  /** What a file system guarantees of names. */
  predicate WellFormed(entries: seq<Entry>) {
    entries != [] ==>
      && entries[0].name != "" && '/' !in entries[0].name
      && (forall e <- entries[1..] :: e.name != entries[0].name)
      && (entries[0].node.Directory? ==> WellFormed(entries[0].node.entries))
      && WellFormed(entries[1..])
  }

  /** Nothing but directories and regular files. */
  predicate Plain(entries: seq<Entry>) {
    entries != [] ==>
      && (Dot(entries[0].name)
          || entries[0].node.Regular?
          || (entries[0].node.Directory? && Plain(entries[0].node.entries)))
      && Plain(entries[1..])
  }

  /** Every path of the walk fits its buffer. */
  predicate Fits(root: string, entries: seq<Entry>, relative: string) {
    entries != [] ==>
      && (Dot(entries[0].name) || EntryFits(root, entries[0], relative))
      && Fits(root, entries[1..], relative)
  }

  predicate EntryFits(root: string, entry: Entry, relative: string) {
    && |Child(relative, entry.name)| < PATH_MAX
    && |root| + 1 + |Child(relative, entry.name)| < PATH_MAX
    && (entry.node.Directory? ==> Fits(root, entry.node.entries, Child(relative, entry.name)))
  }

  // ----- What a path means, component by component

  function Path(names: seq<string>): string
    requires names != []
  {
    if |names| == 1 then names[0] else names[0] + "/" + Path(names[1..])
  }

  /** The names lead from directory to directory down to this node, and none of them is the
      directory itself or its parent. */
  predicate Leads(entries: seq<Entry>, names: seq<string>, node: Node)
    requires names != []
    decreases |names|
  {
    && names[0] != "." && names[0] != ".."
    && exists e <- entries ::
         && e.name == names[0]
         && if |names| == 1 then e.node == node
            else e.node.Directory? && Leads(e.node.entries, names[1..], node)
  }

  lemma {:induction false} LookupIsUnique(entries: seq<Entry>, e: Entry)
    requires WellFormed(entries) && e in entries
    ensures Lookup(entries, e.name) == if e.name != "." && e.name != ".." then Some(e.node) else None
    ensures e.node.Directory? ==> WellFormed(e.node.entries)
  {
    if e == entries[0] {
      LookupAbsent(entries[1..], e.name);
    } else {
      assert e in entries[1..];
      LookupIsUnique(entries[1..], e);
    }
  }

  lemma {:induction false} LookupFinds(entries: seq<Entry>, name: string)
    requires Lookup(entries, name).Some?
    ensures name != "." && name != ".."
    ensures exists e <- entries :: e.name == name && e.node == Lookup(entries, name).value
  {
    if !(entries[0].name == name && !Dot(name)) {
      LookupFinds(entries[1..], name);
    }
  }

  lemma StepDown(entries: seq<Entry>, name: string, rest: string)
    requires '/' !in name
    ensures
      var node := Lookup(entries, name);
      && FileAt(entries, name)
           == (if node.Some? && node.value.Regular? then Some(node.value.bytes) else None)
      && FileAt(entries, name + "/" + rest)
           == (if node.Some? && node.value.Directory? then FileAt(node.value.entries, rest) else None)
  {
    SlashOfJoin(name, rest);
    assert name[..|name|] == name;
    var path := name + "/" + rest;
    assert path[..|name|] == name && path[|name| + 1..] == rest;
  }

  /** A relative path names a file exactly when its components lead there. */
  lemma {:induction false} PathsLead(entries: seq<Entry>, names: seq<string>, bytes: Text)
    requires WellFormed(entries) && names != [] && forall name <- names :: '/' !in name
    ensures FileAt(entries, Path(names)) == Some(bytes) <==> Leads(entries, names, Regular(bytes))
    decreases |names|
  {
    var name := names[0];
    StepDown(entries, name, if |names| == 1 then "" else Path(names[1..]));
    if e :| e in entries && e.name == name {
      LookupIsUnique(entries, e);
      forall x | x in entries && x.name == name ensures x.node == e.node || name == "." || name == ".." {
        LookupIsUnique(entries, x);
      }
      if |names| > 1 && e.node.Directory? {
        PathsLead(e.node.entries, names[1..], bytes);
      }
    } else if Lookup(entries, name).Some? {
      LookupFinds(entries, name);
    }
  }

  /** A tree is plain exactly when every path leads to a directory or a regular file. */
  lemma PlainIsExact(entries: seq<Entry>)
    ensures Plain(entries) <==>
              forall names, node | names != [] && Leads(entries, names, node) :: !node.Other?
  {
    forall names, node | Plain(entries) && names != [] && Leads(entries, names, node)
      ensures !node.Other?
    {
      PlainLeads(entries, names, node);
    }
    if !Plain(entries) {
      var names := ObstacleIn(entries);
      assert Leads(entries, names, Other);
    }
  }

  lemma {:induction false} PlainAt(entries: seq<Entry>, e: Entry)
    requires Plain(entries) && e in entries && !Dot(e.name)
    ensures e.node.Regular? || (e.node.Directory? && Plain(e.node.entries))
  {
    if e != entries[0] {
      assert e in entries[1..];
      PlainAt(entries[1..], e);
    }
  }

  lemma {:induction false} PlainLeads(entries: seq<Entry>, names: seq<string>, node: Node)
    requires Plain(entries) && names != [] && Leads(entries, names, node)
    ensures !node.Other?
    decreases |names|
  {
    var e :| e in entries && e.name == names[0]
             && if |names| == 1 then e.node == node
                else e.node.Directory? && Leads(e.node.entries, names[1..], node);
    PlainAt(entries, e);
    if |names| > 1 {
      PlainLeads(e.node.entries, names[1..], node);
    }
  }

  lemma LeadsThrough(entries: seq<Entry>, e: Entry, names: seq<string>, node: Node)
    requires e in entries && !Dot(e.name)
    requires e.node.Directory? && names != [] && Leads(e.node.entries, names, node)
    ensures Leads(entries, [e.name] + names, node)
  {
    assert ([e.name] + names)[1..] == names;
  }

  lemma {:induction false} ObstacleIn(entries: seq<Entry>) returns (names: seq<string>)
    requires !Plain(entries)
    ensures names != [] && Leads(entries, names, Other)
    decreases entries
  {
    var e := entries[0];
    if !Plain(entries[1..]) {
      names := ObstacleIn(entries[1..]);
    } else if e.node.Directory? {
      var below := ObstacleIn(e.node.entries);
      LeadsThrough(entries, e, below, Other);
      names := [e.name] + below;
    } else {
      names := [e.name];
    }
  }

  ghost predicate AllFit(root: string, entries: seq<Entry>) {
    forall names, node | names != [] && Leads(entries, names, node) ::
      |root| + 1 + |Path(names)| < PATH_MAX
  }

  /** The walk's paths fit exactly when each path that leads anywhere does. */
  lemma FitsIsExact(root: string, entries: seq<Entry>)
    requires WellFormed(entries)
    ensures Fits(root, entries, "") <==> AllFit(root, entries)
  {
    if Fits(root, entries, "") {
      forall names, node | names != [] && Leads(entries, names, node)
        ensures |root| + 1 + |Path(names)| < PATH_MAX
      {
        FittingLeads(root, entries, "", names, node);
      }
    } else {
      var names, node := OverlongIn(root, entries, "");
      assert Child("", Path(names)) == Path(names);
    }
  }

  lemma {:induction false} FitsAt(root: string, entries: seq<Entry>, relative: string, e: Entry)
    requires Fits(root, entries, relative) && WellFormed(entries) && e in entries && !Dot(e.name)
    ensures EntryFits(root, e, relative) && e.name != ""
    ensures e.node.Directory? ==> WellFormed(e.node.entries)
  {
    if e != entries[0] {
      assert e in entries[1..];
      FitsAt(root, entries[1..], relative, e);
    }
  }

  lemma {:induction false} FittingLeads(
    root: string, entries: seq<Entry>, relative: string, names: seq<string>, node: Node)
    requires Fits(root, entries, relative) && WellFormed(entries)
    requires names != [] && Leads(entries, names, node)
    ensures |root| + 1 + |Child(relative, Path(names))| < PATH_MAX
    decreases |names|
  {
    var e :| e in entries && e.name == names[0]
             && if |names| == 1 then e.node == node
                else e.node.Directory? && Leads(e.node.entries, names[1..], node);
    FitsAt(root, entries, relative, e);
    if |names| > 1 {
      FittingLeads(root, e.node.entries, Child(relative, e.name), names[1..], node);
      InDirectory(relative, e.name, Path(names[1..]));
    }
  }

  lemma {:induction false} OverlongIn(root: string, entries: seq<Entry>, relative: string)
    returns (names: seq<string>, node: Node)
    requires !Fits(root, entries, relative) && WellFormed(entries)
    ensures names != [] && Leads(entries, names, node)
    ensures |root| + 1 + |Child(relative, Path(names))| >= PATH_MAX
    decreases entries
  {
    var e := entries[0];
    var child := Child(relative, e.name);
    if !Fits(root, entries[1..], relative) {
      names, node := OverlongIn(root, entries[1..], relative);
    } else if e.node.Directory? && !Fits(root, e.node.entries, child) {
      names, node := OverlongIn(root, e.node.entries, child);
      LeadsThrough(entries, e, names, node);
      InDirectory(relative, e.name, Path(names));
      assert ([e.name] + names)[1..] == names;
      names := [e.name] + names;
    } else {
      names, node := [e.name], e.node;
    }
  }

  // ----- The walk

  /** What the walk adds to the list for one entry. */
  function ListEntry(entry: Entry, relative: string): seq<string> {
    var child := Child(relative, entry.name);
    if Dot(entry.name) then []
    else match entry.node
      case Directory(entries) => Listing(entries, child)
      case Regular(_) => if Marker(child) then [] else [child]
      case Other => []
  }

  function Listing(entries: seq<Entry>, relative: string): seq<string> {
    if entries == [] then [] else ListEntry(entries[0], relative) + Listing(entries[1..], relative)
  }

  /** A path below `relative` that names a file and is no marker. */
  predicate Found(entries: seq<Entry>, relative: string, path: string) {
    && Below(relative, path).Some? && path != COMMIT_MARKER && path != DIGEST_MARKER
    && FileAt(entries, Below(relative, path).value).Some?
  }

  lemma {:induction false} LookupAbsent(entries: seq<Entry>, name: string)
    requires forall e <- entries :: e.name != name
    ensures Lookup(entries, name).None?
  {
    if entries != [] {
      LookupAbsent(entries[1..], name);
    }
  }

  lemma LookupOne(entry: Entry, name: string)
    ensures Lookup([entry], name)
              == if entry.name == name && !Dot(name) then Some(entry.node) else None
  {
    assert Lookup([entry][1..], name).None?;
  }

  /** Only the first entry, or only the others, can hold a given path. */
  lemma FoundSplits(entries: seq<Entry>, relative: string, path: string)
    requires WellFormed(entries) && entries != []
    ensures Found(entries, relative, path) <==>
              Found([entries[0]], relative, path) || Found(entries[1..], relative, path)
    ensures !(Found([entries[0]], relative, path) && Found(entries[1..], relative, path))
  {
    if Below(relative, path).Some? {
      var q := Below(relative, path).value;
      var name := q[..Slash(q)];
      LookupOne(entries[0], name);
      if name == entries[0].name {
        LookupAbsent(entries[1..], name);
        assert Lookup(entries, name) == Lookup([entries[0]], name);
      } else {
        assert Lookup(entries, name) == Lookup(entries[1..], name);
      }
    }
  }

  /** The walk lists exactly the files. */
  lemma {:induction false} ListingIsExact(entries: seq<Entry>, relative: string, path: string)
    requires WellFormed(entries)
    ensures path in Listing(entries, relative) <==> Found(entries, relative, path)
    decreases entries
  {
    if entries != [] {
      ListEntryIsExact(entries[0], relative, path);
      ListingIsExact(entries[1..], relative, path);
      FoundSplits(entries, relative, path);
    }
  }

  lemma {:induction false} ListEntryIsExact(entry: Entry, relative: string, path: string)
    requires entry.name != "" && '/' !in entry.name
    requires entry.node.Directory? ==> WellFormed(entry.node.entries)
    ensures path in ListEntry(entry, relative) <==> Found([entry], relative, path)
    decreases entry
  {
    if Below(relative, path).Some? {
      var q := Below(relative, path).value;
      LookupOne(entry, q[..Slash(q)]);
    }
    if entry.node.Directory? {
      ListingIsExact(entry.node.entries, Child(relative, entry.name), path);
      DirectoryIsExact(entry, relative, path);
    } else {
      FileIsExact(entry, relative, path);
    }
  }

  lemma DirectoryIsExact(entry: Entry, relative: string, path: string)
    requires entry.name != "" && '/' !in entry.name && entry.node.Directory?
    ensures
      Found([entry], relative, path) <==>
        !Dot(entry.name) && Found(entry.node.entries, Child(relative, entry.name), path)
  {
    BelowDirectory(relative, entry.name, path);
    if Below(relative, path).Some? {
      var q := Below(relative, path).value;
      LookupOne(entry, q[..Slash(q)]);
      DirectoryHolds(relative, entry.name, path);
    }
  }

  /** An entry that is no directory answers to its own name alone. */
  lemma FileAtOne(entry: Entry, q: string)
    requires '/' !in entry.name && !entry.node.Directory?
    ensures FileAt([entry], q).Some? <==>
              q == entry.name && !Dot(entry.name) && entry.node.Regular?
  {
    var i := Slash(q);
    LookupOne(entry, q[..i]);
    if q == entry.name {
      SlashOfJoin(entry.name, "");
    }
    assert q[..|q|] == q;
  }

  lemma FileIsExact(entry: Entry, relative: string, path: string)
    requires entry.name != "" && '/' !in entry.name && !entry.node.Directory?
    ensures path in ListEntry(entry, relative) <==> Found([entry], relative, path)
  {
    BelowChild(relative, path);
    BelowChild(relative, entry.name);
    if Below(relative, path).Some? {
      var q := Below(relative, path).value;
      FileAtOne(entry, q);
      assert q == entry.name <==> path == Child(relative, entry.name);
    }
  }

  /** The walk lists no path twice. */
  lemma {:induction false} ListingIsDistinct(entries: seq<Entry>, relative: string)
    requires WellFormed(entries)
    ensures Distinct(Listing(entries, relative))
    decreases entries
  {
    if entries != [] {
      var first, rest := ListEntry(entries[0], relative), Listing(entries[1..], relative);
      if entries[0].node.Directory? {
        ListingIsDistinct(entries[0].node.entries, Child(relative, entries[0].name));
      }
      ListingIsDistinct(entries[1..], relative);
      forall i, j | 0 <= i < |first| && 0 <= j < |rest|
        ensures first[i] != rest[j]
      {
        if first[i] == rest[j] {
          var path := first[i];
          assert path in first && path in rest;
          ListEntryIsExact(entries[0], relative, path);
          ListingIsExact(entries[1..], relative, path);
          FoundSplits(entries, relative, path);
          assert false;
        }
      }
    }
  }

  lemma {:induction false} SortedListing(entries: seq<Entry>) returns (sorted: seq<string>)
    requires WellFormed(entries)
    ensures sorted == Sort(Listing(entries, "")) && Ordered(sorted) && Distinct(sorted)
    ensures |sorted| == |Listing(entries, "")|
    ensures forall path :: path in sorted <==> !Marker(path) && FileAt(entries, path).Some?
  {
    var listing := Listing(entries, "");
    sorted := Sort(listing);
    SortOrders(listing);
    ListingIsDistinct(entries, "");
    DistinctPermutes(listing, sorted);
    assert |multiset(sorted)| == |multiset(listing)|;
    forall path
      ensures path in sorted <==> !Marker(path) && FileAt(entries, path).Some?
    {
      ListingIsExact(entries, "", path);
      assert path in multiset(sorted) <==> path in multiset(listing);
    }
  }

  lemma {:induction false} PathFits(
    root: string, entries: seq<Entry>, relative: string, path: string)
    requires Fits(root, entries, relative) && path in Listing(entries, relative)
    ensures |root| + 1 + |path| < PATH_MAX
    decreases entries
  {
    var entry := entries[0];
    if path in ListEntry(entry, relative) {
      if entry.node.Directory? {
        PathFits(root, entry.node.entries, Child(relative, entry.name), path);
      }
    } else {
      PathFits(root, entries[1..], relative, path);
    }
  }

  /** Every sorted path opens: it names a file and fits its buffer. */
  lemma ListedPathsFit(root: string, entries: seq<Entry>)
    requires WellFormed(entries) && Fits(root, entries, "")
    ensures
      var sorted := Sort(Listing(entries, ""));
      forall i | 0 <= i < |sorted| ::
        FileAt(entries, sorted[i]).Some? && |root| + 1 + |sorted[i]| < PATH_MAX
  {
    var sorted := SortedListing(entries);
    forall i | 0 <= i < |sorted|
      ensures FileAt(entries, sorted[i]).Some? && |root| + 1 + |sorted[i]| < PATH_MAX
    {
      assert sorted[i] in sorted && sorted[i] in multiset(sorted);
      assert sorted[i] in multiset(Listing(entries, ""));
      PathFits(root, entries, "", sorted[i]);
    }
  }

  predicate SameContents(left: seq<Entry>, right: seq<Entry>, paths: seq<string>) {
    forall i | 0 <= i < |paths| :: FileAt(left, paths[i]) == FileAt(right, paths[i])
  }

  /** Comparing the sorted listings and then each listed file decides equality of the trees. */
  lemma SortedComparisonIsExact(left: seq<Entry>, right: seq<Entry>)
    requires WellFormed(left) && WellFormed(right)
    ensures
      SameFiles(left, right) <==>
        && Sort(Listing(left, "")) == Sort(Listing(right, ""))
        && SameContents(left, right, Sort(Listing(left, "")))
  {
    var l := SortedListing(left);
    var r := SortedListing(right);
    if SameFiles(left, right) {
      OrderedListsAgree(l, r);
      forall i | 0 <= i < |l|
        ensures FileAt(left, l[i]) == FileAt(right, l[i])
      {
        assert l[i] in l;
      }
    }
    if l == r && SameContents(left, right, l) {
      forall path: string | !Marker(path)
        ensures FileAt(left, path) == FileAt(right, path)
      {
        assert path in l <==> path in r;
      }
    }
  }
}
