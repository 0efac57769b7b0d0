/**
 * Which trees the sampler reads as they are. It drops the bytes of a short name that are not ASCII, and
 * takes each 16-bit unit of a long name for a character, so a tree comes back unchanged exactly if every
 * name on the way to a file is in ASCII, or long and without characters beyond 16 bits.
 */
module FatReadable {
  import opened Prelude
  import opened FatDirectory
  import opened FatSampler
  import opened FatLayout

  ghost predicate HoldsFileItem(item: Item)
    decreases item, 1
  {
    item.FileItem? || (item.DirItem? && HoldsFile(item.items))
  }

  ghost predicate HoldsFile(items: seq<Item>)
    decreases items, 0
  {
    items != [] && (HoldsFileItem(items[0]) || HoldsFile(items[1..]))
  }

  /** Every file, and every directory with a file below it, has a name that the sampler reads as it is. */
  ghost predicate Readable(items: seq<Item>)
    decreases items, 0
  {
    items == [] || (ReadableItem(items[0]) && Readable(items[1..]))
  }

  ghost predicate ReadableItem(item: Item)
    decreases item, 1
  {
    && (item.FileItem? ==> ReadableName(item.name))
    && (item.DirItem? ==> Readable(item.items) && (HoldsFile(item.items) ==> ReadableName(item.name)))
  }

  /** The characters of all paths, counted as Sum counts them, and one for each file. */
  function Weight(files: seq<FileRec>): nat {
    if files == [] then 0 else Sum(files[0].path) + 1 + Weight(files[1..])
  }

  lemma {:induction false} WeightAppend(a: seq<FileRec>, b: seq<FileRec>)
    ensures Weight(a + b) == Weight(a) + Weight(b)
  {
    if a == [] {
      assert a + b == b;
    } else {
      WeightAppend(a[1..], b);
      assert (a + b)[1..] == a[1..] + b;
    }
  }

  /** The weight does not depend on the order of the files. */
  lemma {:induction false} WeightOfMultiset(a: seq<FileRec>, b: seq<FileRec>)
    requires multiset(a) == multiset(b)
    ensures Weight(a) == Weight(b)
  {
    hide Weight;
    if a == [] {
      assert |multiset(b)| == 0;
    } else {
      assert a[0] in multiset(b);
      var k :| 0 <= k < |b| && b[k] == a[0];
      Without(a, 0);
      Without(b, k);
      WeightOfMultiset(a[..0] + a[1..], b[..k] + b[k+1..]);
    }
  }

  /** Leaving one file out takes its weight. */
  lemma Without(b: seq<FileRec>, k: nat)
    requires k < |b|
    ensures var others := b[..k] + b[k+1..];
      multiset(others) == multiset(b) - multiset{b[k]} && Weight(b) == Weight(others) + Sum(b[k].path) + 1
  {
    hide Sum;
    var rest := b[k+1..];
    assert b == b[..k] + ([b[k]] + rest);
    assert multiset(b) == multiset(b[..k]) + (multiset{b[k]} + multiset(rest));
    WeightAppend(b[..k], [b[k]] + rest);
    WeightAppend(b[..k], rest);
    assert ([b[k]] + rest)[1..] == rest;
  }

  lemma PathSum(prefix: Text, name: Text)
    ensures Sum(PathOf(prefix, name)) == Sum(name) + if prefix == [] then 0 else Sum(prefix) + 48
  {
    SumAppend(prefix + [47], name);
    SumAppend(prefix, [47]);
    var slash: Text := [47];
    assert slash[..0] == [] && Sum(slash) == 48;
  }

  /** The path that the sampler gives is no heavier than the real one, and as heavy only if nothing was dropped. */
  lemma SeenPath(p: Text, q: Text, name: Name)
    requires ValidName(name) && Sum(p) <= Sum(q) && (p == [] <==> q == [])
    ensures Sum(PathOf(p, SeenText(name))) <= Sum(PathIn(q, NameText(name)))
    ensures !ReadableName(name) || Sum(p) < Sum(q) ==> Sum(PathOf(p, SeenText(name))) < Sum(PathIn(q, NameText(name)))
    ensures ReadableName(name) ==> SeenText(name) == NameText(name)
    ensures IsSkipped(SeenText(name)) ==> !ReadableName(name)
    ensures !IsSkipped(SeenText(name)) ==> PathOf(p, SeenText(name)) != []
    ensures PathIn(q, NameText(name)) != []
  {
    hide SeenText;
    SeenTextIff(name);
    PathSum(p, SeenText(name));
    PathSum(q, NameText(name));
    PathInIsPath(q, NameText(name));
    assert NameText(name) != [];
  }

  /** How the files found under a path p compare with those there are under a path q. */
  ghost predicate Compares(p: Text, q: Text, found: seq<FileRec>, files: seq<FileRec>, some: bool, readable: bool) {
    && Weight(found) <= Weight(files)
    && (!some ==> found == [] && files == [] && readable)
    && (some && (Sum(p) < Sum(q) || !readable) ==> Weight(found) < Weight(files))
    && (p == q && readable ==> found == files)
  }

  lemma {:induction false} ItemCompares(holds: (seq<nat>, seq<Byte>) -> bool, p: Text, q: Text, item: Item)
    requires Stored(holds, item) && Sum(p) <= Sum(q) && (p == [] <==> q == [])
    ensures Compares(p, q, SeenOfItem(p, item), FilesOfItem(q, item), HoldsFileItem(item), ReadableItem(item))
    decreases item, 1
  {
    hide SeenText, NameText, ValidName, PathOf, PathIn, Sum, IsSkipped;
    if item.FileItem? || item.DirItem? { PathInIsPath(q, NameText(item.name)); }
    if item.FileItem? {
      SeenPath(p, q, item.name);
      var found, files := SeenOfItem(p, item), FilesOfItem(q, item);
      assert files[1..] == [] && (found != [] ==> found[1..] == []);
    } else if item.DirItem? {
      SeenPath(p, q, item.name);
      if IsSkipped(SeenText(item.name)) {
        ItemsCompare(holds, q, q, item.items);
        FilesHaveWeight(PathIn(q, NameText(item.name)), item.items);
      } else {
        ItemsCompare(holds, PathOf(p, SeenText(item.name)), PathIn(q, NameText(item.name)), item.items);
      }
    }
  }

  lemma {:induction false} ItemsCompare(holds: (seq<nat>, seq<Byte>) -> bool, p: Text, q: Text, items: seq<Item>)
    requires AllStored(holds, items) && Sum(p) <= Sum(q) && (p == [] <==> q == [])
    ensures Compares(p, q, SeenOf(p, items), FilesOf(q, items), HoldsFile(items), Readable(items))
    decreases items, 0
  {
    if items != [] {
      ItemCompares(holds, p, q, items[0]);
      ItemsCompare(holds, p, q, items[1..]);
      WeightAppend(SeenOfItem(p, items[0]), SeenOf(p, items[1..]));
      WeightAppend(FilesOfItem(q, items[0]), FilesOf(q, items[1..]));
    }
  }

  lemma {:induction false} FilesHaveWeight(q: Text, items: seq<Item>)
    ensures HoldsFile(items) <==> Weight(FilesOf(q, items)) > 0
    ensures HoldsFile(items) <==> FilesOf(q, items) != []
    decreases items
  {
    if items != [] {
      if items[0].DirItem? {
        FilesHaveWeight(PathIn(q, NameText(items[0].name)), items[0].items);
      }
      FilesHaveWeight(q, items[1..]);
      WeightAppend(FilesOfItem(q, items[0]), FilesOf(q, items[1..]));
    }
  }

  /** A stored tree is seen as it is if and only if it is readable, in directory order or in any other. */
  lemma SeenIffReadable(holds: (seq<nat>, seq<Byte>) -> bool, items: seq<Item>)
    requires AllStored(holds, items)
    ensures SeenOf([], items) == FilesOf([], items) <==> Readable(items)
    ensures multiset(SeenOf([], items)) == multiset(FilesOf([], items)) <==> Readable(items)
  {
    ItemsCompare(holds, [], [], items);
    if multiset(SeenOf([], items)) == multiset(FilesOf([], items)) {
      WeightOfMultiset(SeenOf([], items), FilesOf([], items));
    }
  }

  // ---------------------------------------------------------------- which lists of files can be written

  /** The paths can be encoded as UTF-8, as writing the list to its file takes. */
  ghost predicate Writable(files: seq<FileRec>) { forall i :: 0 <= i < |files| ==> IsUnicode(files[i].path) }

  ghost predicate CleanItem(item: Item)
    decreases item, 1
  {
    && (item.FileItem? ==> CleanName(item.name))
    && (item.DirItem? ==> Clean(item.items) && (HoldsFile(item.items) ==> CleanName(item.name)))
  }

  /** Every name on the way to a file is clean. */
  ghost predicate Clean(items: seq<Item>)
    decreases items, 0
  {
    items == [] || (CleanItem(items[0]) && Clean(items[1..]))
  }

  lemma PathIsUnicode(prefix: Text, name: Text)
    ensures IsUnicode(PathIn(prefix, name)) <==> IsUnicode(name) && IsUnicode(prefix)
  {
    var t := PathIn(prefix, name);
    if prefix != [] && IsUnicode(t) {
      forall i | 0 <= i < |prefix| ensures !IsSurrogate(prefix[i]) { assert t[i] == prefix[i]; }
      forall i | 0 <= i < |name| ensures !IsSurrogate(name[i]) { assert t[|prefix| + 1 + i] == name[i]; }
    }
  }

  lemma WritableJoin(a: seq<FileRec>, b: seq<FileRec>)
    ensures Writable(a + b) <==> Writable(a) && Writable(b)
  {
    if Writable(a + b) {
      forall i | 0 <= i < |a| ensures IsUnicode(a[i].path) { assert (a + b)[i] == a[i]; }
      forall i | 0 <= i < |b| ensures IsUnicode(b[i].path) { assert (a + b)[|a| + i] == b[i]; }
    }
  }

  /** Below a path that cannot be written no file's path can. */
  lemma {:induction false} NoneWritable(q: Text, items: seq<Item>)
    requires !IsUnicode(q)
    ensures Writable(FilesOf(q, items)) ==> !HoldsFile(items)
    decreases items
  {
    hide PathIn, IsUnicode, NameText;
    if items != [] {
      WritableJoin(FilesOfItem(q, items[0]), FilesOf(q, items[1..]));
      NoneWritable(q, items[1..]);
      if items[0].FileItem? || items[0].DirItem? {
        PathIsUnicode(q, NameText(items[0].name));
      }
      if items[0].DirItem? {
        NoneWritable(PathIn(q, NameText(items[0].name)), items[0].items);
      } else if items[0].FileItem? {
        assert !IsUnicode(FilesOfItem(q, items[0])[0].path);
      }
    }
  }

  lemma {:induction false} NothingToRead(items: seq<Item>)
    requires !HoldsFile(items)
    ensures FilesOf([], items) == [] && Clean(items) && Readable(items)
    decreases items
  {
    if items != [] {
      if items[0].DirItem? {
        NothingToRead(items[0].items);
        FilesHaveWeight(PathIn([], NameText(items[0].name)), items[0].items);
      }
      NothingToRead(items[1..]);
    }
  }

  lemma {:induction false} ItemIsClean(holds: (seq<nat>, seq<Byte>) -> bool, q: Text, item: Item)
    requires Stored(holds, item) && IsUnicode(q)
    ensures CleanItem(item) <==> ReadableItem(item) && Writable(FilesOfItem(q, item))
    decreases item, 1
  {
    hide PathIn, IsUnicode, NameText, SeenText, ReadableName, CleanName, ValidName;
    if item.FileItem? || item.DirItem? {
      CleanNameIff(item.name);
      SeenTextIff(item.name);
      PathIsUnicode(q, NameText(item.name));
    }
    if item.FileItem? {
      assert |FilesOfItem(q, item)| == 1;
      assert Writable(FilesOfItem(q, item)) <==> IsUnicode(FilesOfItem(q, item)[0].path);
    } else if item.DirItem? {
      var path := PathIn(q, NameText(item.name));
      if IsUnicode(path) {
        ItemsAreClean(holds, path, item.items);
      } else {
        NoneWritable(path, item.items);
      }
      if !HoldsFile(item.items) {
        NothingToRead(item.items);
        FilesHaveWeight(path, item.items);
      }
    }
  }

  /** A tree is clean if and only if it is readable and the paths of its files can be written. */
  lemma {:induction false} ItemsAreClean(holds: (seq<nat>, seq<Byte>) -> bool, q: Text, items: seq<Item>)
    requires AllStored(holds, items) && IsUnicode(q)
    ensures Clean(items) <==> Readable(items) && Writable(FilesOf(q, items))
    decreases items, 0
  {
    if items != [] {
      ItemIsClean(holds, q, items[0]);
      ItemsAreClean(holds, q, items[1..]);
      WritableJoin(FilesOfItem(q, items[0]), FilesOf(q, items[1..]));
    }
  }

  lemma WritableOfMultiset(a: seq<FileRec>, b: seq<FileRec>)
    requires multiset(a) == multiset(b)
    ensures Writable(a) <==> Writable(b)
  {
    forall f | f in a ensures f in b { assert f in multiset(b); }
    forall f | f in b ensures f in a { assert f in multiset(a); }
    assert Writable(a) <==> forall f :: f in a ==> IsUnicode(f.path);
    assert Writable(b) <==> forall f :: f in b ==> IsUnicode(f.path);
  }

  /** The files of the tree are seen, in any order, and can be written, if and only if the tree is clean. */
  lemma SeenAndWrittenIff(holds: (seq<nat>, seq<Byte>) -> bool, items: seq<Item>)
    requires AllStored(holds, items)
    ensures multiset(SeenOf([], items)) == multiset(FilesOf([], items)) && Writable(SeenOf([], items)) <==> Clean(items)
  {
    SeenIffReadable(holds, items);
    ItemsAreClean(holds, [], items);
  }

  /**
   * A failing input: a long name with a character beyond 16 bits is valid, is seen as two characters that
   * are none, and stands for another text, whatever stands around it.
   */
  lemma PairIsSplit(before: seq<nat>, high: nat, low: nat, after: seq<nat>, checksum: Byte, alias: seq<Byte>)
    requires IsPair(high, low) && NameUnits(before + [high, low] + after) && |before| + 2 + |after| <= 255
    requires |alias| == 11 && alias[0] !in {0, 0xE5}
    ensures var n := Long(before + [high, low] + after, checksum, alias);
      ValidName(n) && !ReadableName(n) && SeenText(n) != NameText(n) && !IsUnicode(SeenText(n))
  {
    var units := before + [high, low] + after;
    var n := Long(units, checksum, alias);
    var k := |before|;
    assert units[k] == high && units[k+1] == low;
    assert IsPair(units[k+1-1], units[k+1]);
    Utf16Iff(units);
    PairIsBeyond(units);
  }
}
