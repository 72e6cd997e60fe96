/** The builder's comparison of two exported trees: walk both, sort both lists, compare the
    lists and then the files chunk by chunk. System calls are taken to succeed. */
module TreeCompare {
  import opened Optional
  import opened Bytes
  import opened PathOrder
  import opened Trees

  const CHUNK := 8192

  /** A growing list of paths. */
  class PathList {
    var items: array<string>
    var length: nat

    ghost predicate Valid()
      reads this
    {
      length <= items.Length
    }

    function Contents(): seq<string>
      requires Valid()
      reads this, items
    {
      items[..length]
    }

    constructor ()
      ensures Valid() && Contents() == [] && fresh(items)
    {
      items, length := new string[0], 0;
    }

    /** Appends a path, doubling a full array. */
    method Add(path: string)
      requires Valid()
      modifies this, items
      ensures Valid() && Contents() == old(Contents()) + [path]
      ensures items == old(items) || fresh(items)
    {
      if length == items.Length {
        var grown := new string[if items.Length == 0 then 32 else items.Length * 2];
        for i := 0 to length
          invariant items == old(items) && length == old(length)
          invariant items[..] == old(items[..])
          invariant grown[..i] == items[..i]
        {
          grown[i] := items[i];
        }
        items := grown;
      }
      items[length] := path;
      length := length + 1;
    }

    method Store(paths: seq<string>)
      requires Valid() && |paths| == length
      modifies items
      ensures Contents() == paths
    {
      for i := 0 to length
        invariant items[..i] == paths[..i]
      {
        items[i] := paths[i];
      }
    }

    /** Any sorting routine will do: the sorted arrangement of a list is unique. */
    method SortItems()
      requires Valid()
      modifies items
      ensures Valid() && Contents() == Sort(old(Contents()))
    {
      Store(Sort(items[..length]));
    }
  }

  method PathJoin(left: string, right: string) returns (path: Option<string>)
    ensures path == if |left| + 1 + |right| < PATH_MAX then Some(left + "/" + right) else None
  {
    var joined := left + "/" + right;
    return if |joined| < PATH_MAX then Some(joined) else None;
  }

  /** The relative path of an entry, if it and the path to open fit their buffers. */
  method ChildPath(root: string, relative: string, name: string) returns (child: Option<string>)
    ensures
      var path := Child(relative, name);
      child == if |path| < PATH_MAX && |root| + 1 + |path| < PATH_MAX then Some(path) else None
  {
    if relative == "" {
      if |name| >= PATH_MAX {
        return None;
      }
      child := Some(name);
    } else {
      child := PathJoin(relative, name);
      if child.None? {
        return None;
      }
    }
    var path := PathJoin(root, child.value);
    return if path.None? then None else child;
  }

  /** The recursive walk over what is left of a directory stream. */
  method CollectFiles(root: string, entries: seq<Entry>, relative: string, list: PathList)
    returns (ok: bool)
    requires list.Valid()
    modifies list, list.items
    ensures list.Valid() && (list.items == old(list.items) || fresh(list.items))
    ensures ok <==> Fits(root, entries, relative) && Plain(entries)
    ensures ok ==> list.Contents() == old(list.Contents()) + Listing(entries, relative)
    decreases entries
  {
    if entries == [] {
      return true;
    }
    var entry := entries[0];
    ghost var before := list.Contents();
    if !Dot(entry.name) {
      ok := CollectEntry(root, entry, relative, list);
      if !ok {
        return false;
      }
    }
    ghost var first, rest := ListEntry(entry, relative), Listing(entries[1..], relative);
    assert list.Contents() == before + first;
    ok := CollectFiles(root, entries[1..], relative, list);
    assert before + first + rest == before + (first + rest);
  }

  method CollectEntry(root: string, entry: Entry, relative: string, list: PathList)
    returns (ok: bool)
    requires list.Valid() && !Dot(entry.name)
    modifies list, list.items
    ensures list.Valid() && (list.items == old(list.items) || fresh(list.items))
    ensures ok <==>
      && EntryFits(root, entry, relative)
      && (entry.node.Regular? || (entry.node.Directory? && Plain(entry.node.entries)))
    ensures ok ==> list.Contents() == old(list.Contents()) + ListEntry(entry, relative)
    decreases entry
  {
    var child := ChildPath(root, relative, entry.name);
    if child.None? {
      return false;
    }
    if entry.node.Directory? {
      ok := CollectFiles(root, entry.node.entries, child.value, list);
    } else if entry.node.Regular? {
      if !Marker(child.value) {
        list.Add(child.value);
      }
      ok := true;
    } else {
      ok := false;
    }
  }

  function ChunkAt(bytes: Text, offset: nat): Text {
    if offset >= |bytes| then []
    else if offset + CHUNK <= |bytes| then bytes[offset..offset + CHUNK]
    else bytes[offset..]
  }

  /** Reads both files in lockstep until a short chunk ends the comparison. */
  method FilesEqual(left: Text, right: Text) returns (equal: bool)
    ensures equal <==> left == right
  {
    var offset := 0;
    while true
      invariant offset <= |left| && offset <= |right| && left[..offset] == right[..offset]
      decreases |left| - offset
    {
      var a, b := ChunkAt(left, offset), ChunkAt(right, offset);
      if |a| != |b| || a != b {
        assert left == right ==> a == b;
        return false;
      }
      assert left[..offset + |a|] == left[..offset] + a;
      assert right[..offset + |b|] == right[..offset] + b;
      if |a| < CHUNK {
        assert left[..|left|] == left && right[..|right|] == right;
        return true;
      }
      offset := offset + CHUNK;
    }
  }

  /** The sorted list of one tree, unless the walk fails. */
  method SortedFiles(root: string, tree: Node) returns (paths: Option<seq<string>>)
    ensures paths.Some? <==>
      && tree.Directory? && |root| < PATH_MAX
      && Fits(root, tree.entries, "") && Plain(tree.entries)
    ensures paths.Some? ==> paths.value == Sort(Listing(tree.entries, ""))
  {
    if !tree.Directory? || |root| >= PATH_MAX {
      return None;
    }
    var list := new PathList();
    var ok := CollectFiles(root, tree.entries, "", list);
    if !ok {
      return None;
    }
    assert list.Contents() == Listing(tree.entries, "");
    list.SortItems();
    return Some(list.items[..list.length]);
  }

  /** Compares two trees. The answer is exact: both trees fit the path buffers, hold nothing
      but directories and regular files, and define the same files with the same bytes. */
  method TreesEqual(leftRoot: string, left: Node, rightRoot: string, right: Node)
    returns (equal: bool)
    requires left.Directory? ==> WellFormed(left.entries)
    requires right.Directory? ==> WellFormed(right.entries)
    ensures equal <==>
      && left.Directory? && |leftRoot| < PATH_MAX
      && Fits(leftRoot, left.entries, "") && Plain(left.entries)
      && right.Directory? && |rightRoot| < PATH_MAX
      && Fits(rightRoot, right.entries, "") && Plain(right.entries)
      && SameFiles(left.entries, right.entries)
  {
    var l := SortedFiles(leftRoot, left);
    if l.None? {
      return false;
    }
    var r := SortedFiles(rightRoot, right);
    if r.None? {
      return false;
    }
    equal := CompareLists(leftRoot, left.entries, rightRoot, right.entries, l.value, r.value);
  }

  /** Two sorted listings of fitting trees decide whether the trees define the same files. */
  method CompareLists(
    leftRoot: string, left: seq<Entry>, rightRoot: string, right: seq<Entry>,
    l: seq<string>, r: seq<string>) returns (equal: bool)
    requires WellFormed(left) && Fits(leftRoot, left, "") && l == Sort(Listing(left, ""))
    requires WellFormed(right) && Fits(rightRoot, right, "") && r == Sort(Listing(right, ""))
    ensures equal <==> SameFiles(left, right)
  {
    SortedComparisonIsExact(left, right);
    ListedPathsFit(leftRoot, left);
    ListedPathsFit(rightRoot, right);
    if |l| != |r| {
      return false;
    }
    equal := CompareListed(leftRoot, left, rightRoot, right, l, r);
  }

  /** The final loop over two sorted lists of one length. */
  method CompareListed(
    leftRoot: string, left: seq<Entry>, rightRoot: string, right: seq<Entry>,
    l: seq<string>, r: seq<string>) returns (equal: bool)
    requires |l| == |r|
    requires forall i | 0 <= i < |l| :: FileAt(left, l[i]).Some? && |leftRoot| + 1 + |l[i]| < PATH_MAX
    requires forall i | 0 <= i < |r| :: FileAt(right, r[i]).Some? && |rightRoot| + 1 + |r[i]| < PATH_MAX
    ensures equal <==> l == r && SameContents(left, right, l)
  {
    for i := 0 to |l|
      invariant forall k | 0 <= k < i :: l[k] == r[k] && FileAt(left, l[k]) == FileAt(right, l[k])
    {
      if l[i] != r[i] {
        return false;
      }
      var leftPath := PathJoin(leftRoot, l[i]);
      var rightPath := PathJoin(rightRoot, r[i]);
      if leftPath.None? || rightPath.None? {
        return false;
      }
      var same := FilesEqual(FileAt(left, l[i]).value, FileAt(right, r[i]).value);
      if !same {
        return false;
      }
    }
    return true;
  }
}
