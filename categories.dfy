/** The category screens: the indented category tree, its text filter, the visibility editor
    and the decisions of the two dialogs. `str.lower` is the parameter `lower`. */
module Categories {
  import opened Wrappers
  import opened Seqs
  import opened Sorting
  import opened Models
  import Strings

  // ---------------------------------------------------------------------------------------
  // build_category_tree
  // ---------------------------------------------------------------------------------------

  /** A tree row: a category and its depth. */
  type Entry = (Category, int)

  /** No two categories share a `qbo_id` (the column is UNIQUE in the database). */
  ghost predicate UniqueQboIds(cats: seq<Category>) {
    forall i, j :: 0 <= i < |cats| && 0 <= j < |cats| && cats[i].qboId == cats[j].qboId ==> i == j
  }

  /** Sibling order: `key=lambda c: c.name.lower()`. */
  function NameOrder(lower: string -> string): (lt: (Category, Category) -> bool)
  {
    (a: Category, b: Category) => Strings.StrLess(lower(a.name), lower(b.name))
  }

  lemma NameOrderIsStrictWeakOrder(lower: string -> string)
    ensures StrictWeakOrder(NameOrder(lower))
  {
    var lt := NameOrder(lower);
    Strings.StrLessStrictTotal();
    forall a: Category
      ensures !lt(a, a)
    {
      Strings.StrLessIrreflexive(lower(a.name));
    }
    forall a: Category, b: Category, c: Category | lt(a, b) && lt(b, c)
      ensures lt(a, c)
    {
      Strings.StrLessTransitive(lower(a.name), lower(b.name), lower(c.name));
    }
    forall a: Category, b: Category, c: Category | lt(a, b)
      ensures lt(a, c) || lt(c, b)
    {
      var x, y, z := lower(a.name), lower(b.name), lower(c.name);
      if z != x && z != y {
        Strings.StrLessTotal(x, z);
        if Strings.StrLess(z, x) {
          Strings.StrLessTransitive(z, x, y);
        }
      }
    }
  }

  /** The `by_parent` list for a key: the categories whose `parent_id` is `key`, in input
      order, then stably sorted by lower-cased name. */
  function Children(cats: seq<Category>, lower: string -> string, key: Option<string>): (r: seq<Category>)
  {
    SortBy(Filter(cats, (c: Category) => c.parentId == key), NameOrder(lower))
  }

  /** A root-to-node chain: a root first, then each element a child of the one before. */
  ghost predicate IsChain(cats: seq<Category>, path: seq<Category>) {
    && (forall i :: 0 <= i < |path| ==> path[i] in cats)
    && (path != [] ==> path[0].parentId == None)
    && (forall i :: 0 < i < |path| ==> path[i].parentId == Some(path[i - 1].qboId))
  }

  /** The `parent_qbo_id` that `add_children` is called with under a chain. */
  function Key(path: seq<Category>): (k: Option<string>)
    ensures path == [] <==> k.None?
  {
    if path == [] then None else Some(path[|path| - 1].qboId)
  }

  /** A category as placed in the tree, with the chain of its ancestors. */
  datatype Placed = Placed(category: Category, ancestors: seq<Category>)

  function Full(x: Placed): seq<Category> {
    x.ancestors + [x.category]
  }

  ghost predicate KidsOf(cats: seq<Category>, path: seq<Category>, kids: seq<Category>) {
    forall k :: k in kids ==> k in cats && k.parentId == Key(path)
  }

  lemma UniqueQboIdsMembers(cats: seq<Category>, a: Category, b: Category)
    requires UniqueQboIds(cats)
    requires a in cats && b in cats
    ensures a.qboId == b.qboId ==> a == b
  {
  }

  lemma UniqueQboIdsDistinct(cats: seq<Category>)
    requires UniqueQboIds(cats)
    ensures Distinct(cats)
  {
  }

  /** Under unique `qbo_id`s a chain never repeats a category. */
  lemma {:induction false} ChainDistinctAt(cats: seq<Category>, path: seq<Category>, i: int, j: int)
    requires UniqueQboIds(cats) && IsChain(cats, path)
    requires 0 <= i < j < |path|
    ensures path[i] != path[j]
    decreases i
  {
    if i == 0 {
      assert path[j].parentId.Some?;
    } else {
      ChainDistinctAt(cats, path, i - 1, j - 1);
      UniqueQboIdsMembers(cats, path[i - 1], path[j - 1]);
      assert path[i].parentId != path[j].parentId;
    }
  }

  lemma ChainDistinct(cats: seq<Category>, path: seq<Category>)
    requires UniqueQboIds(cats) && IsChain(cats, path)
    ensures Distinct(path)
    ensures |path| <= |cats|
  {
    forall i, j | 0 <= i < j < |path|
      ensures path[i] != path[j]
    {
      ChainDistinctAt(cats, path, i, j);
    }
    DistinctWithinIsShorter(path, cats);
  }

  /** A child of a chain's last element extends the chain, and the chain stays no longer than
      the category list: the measure that makes `add_children` terminate. */
  lemma ChainExtends(cats: seq<Category>, path: seq<Category>, k: Category)
    requires UniqueQboIds(cats) && IsChain(cats, path)
    requires k in cats && k.parentId == Key(path)
    ensures IsChain(cats, path + [k])
    ensures |path| + 1 <= |cats|
  {
    var next := path + [k];
    assert forall i :: 0 <= i < |path| ==> next[i] == path[i];
    ChainDistinct(cats, next);
  }

  lemma IsChainPrefix(cats: seq<Category>, path: seq<Category>, n: nat)
    requires IsChain(cats, path) && n <= |path|
    ensures IsChain(cats, path[..n])
  {
  }

  lemma ChildrenFacts(cats: seq<Category>, lower: string -> string, path: seq<Category>)
    requires UniqueQboIds(cats)
    ensures KidsOf(cats, path, Children(cats, lower, Key(path)))
    ensures Distinct(Children(cats, lower, Key(path)))
    ensures Sorted(Children(cats, lower, Key(path)), NameOrder(lower))
  {
    var p := (c: Category) => c.parentId == Key(path);
    var kids := Children(cats, lower, Key(path));
    forall k | k in kids
      ensures k in cats && k.parentId == Key(path)
    {
      SortByMembers(Filter(cats, p), NameOrder(lower), k);
      FilterMember(cats, p, k);
    }
    UniqueQboIdsDistinct(cats);
    DistinctMultiset(cats);
    SortByPermutation(Filter(cats, p), NameOrder(lower));
    forall x
      ensures multiset(kids)[x] <= 1
    {
      FilterMultiset(cats, p, x);
    }
    DistinctMultiset(kids);
    NameOrderIsStrictWeakOrder(lower);
    SortBySorted(Filter(cats, p), NameOrder(lower));
  }

  /** `add_children(Key(path), |path|)`: every child of the chain's end, in sibling order, each
      followed by its own subtree. */
  function Placements(cats: seq<Category>, lower: string -> string, path: seq<Category>): (r: seq<Placed>)
    requires UniqueQboIds(cats) && IsChain(cats, path)
    decreases |cats| - |path|, 1, 0
  {
    ChildrenFacts(cats, lower, path);
    PlacementsFrom(cats, lower, path, Children(cats, lower, Key(path)))
  }

  /** The `for child in children` loop of `add_children`, from one child on. */
  function PlacementsFrom(cats: seq<Category>, lower: string -> string, path: seq<Category>, kids: seq<Category>): (r: seq<Placed>)
    requires UniqueQboIds(cats) && IsChain(cats, path) && KidsOf(cats, path, kids)
    decreases |cats| - |path|, 0, |kids|
  {
    if kids == [] then []
    else
      ChainExtends(cats, path, kids[0]);
      [Placed(kids[0], path)] + Placements(cats, lower, path + [kids[0]]) + PlacementsFrom(cats, lower, path, kids[1..])
  }

  function EntryOf(x: Placed): Entry {
    (x.category, |x.ancestors|)
  }

  /** `build_category_tree`. */
  function BuildCategoryTree(cats: seq<Category>, lower: string -> string): (r: seq<Entry>)
    requires UniqueQboIds(cats)
    ensures forall i :: 0 <= i < |r| ==> r[i].0 in cats && (r[i].1 == 0 <==> r[i].0.parentId.None?)
  {
    PlacementsOnChains(cats, lower);
    Map(Placements(cats, lower, []), EntryOf)
  }

  /** Every top-level placement is of an input category, a root exactly when it has no
      ancestors. */
  lemma PlacementsOnChains(cats: seq<Category>, lower: string -> string)
    requires UniqueQboIds(cats)
    ensures forall x :: x in Placements(cats, lower, []) ==>
              x.category in cats && (|x.ancestors| == 0 <==> x.category.parentId.None?)
  {
    PlacementsShape(cats, lower, []);
    forall x | x in Placements(cats, lower, [])
      ensures x.category in cats && (|x.ancestors| == 0 <==> x.category.parentId.None?)
    {
      PlacedOnChain(cats, x);
    }
  }

  /** Where a placement listed under `path` can be: below `path`, on a chain, and either one of
      `kids` itself or inside the subtree of one of them. */
  ghost predicate Below(cats: seq<Category>, path: seq<Category>, kids: seq<Category>, x: Placed) {
    && |x.ancestors| >= |path| && x.ancestors[..|path|] == path
    && IsChain(cats, Full(x))
    && (|x.ancestors| == |path| ==> x.category in kids)
    && (|x.ancestors| > |path| ==> x.ancestors[|path|] in kids)
  }

  lemma {:induction false} PlacementsShape(cats: seq<Category>, lower: string -> string, path: seq<Category>)
    requires UniqueQboIds(cats) && IsChain(cats, path)
    ensures forall x :: x in Placements(cats, lower, path) ==> Below(cats, path, Children(cats, lower, Key(path)), x)
    decreases |cats| - |path|, 1, 0
  {
    ChildrenFacts(cats, lower, path);
    PlacementsFromShape(cats, lower, path, Children(cats, lower, Key(path)));
  }

  lemma {:induction false} PlacementsFromShape(cats: seq<Category>, lower: string -> string, path: seq<Category>, kids: seq<Category>)
    requires UniqueQboIds(cats) && IsChain(cats, path) && KidsOf(cats, path, kids)
    ensures forall x :: x in PlacementsFrom(cats, lower, path, kids) ==> Below(cats, path, kids, x)
    decreases |cats| - |path|, 0, |kids|
  {
    if kids != [] {
      var k := kids[0];
      var next := path + [k];
      ChainExtends(cats, path, k);
      var mid := Placements(cats, lower, next);
      var rest := PlacementsFrom(cats, lower, path, kids[1..]);
      PlacementsShape(cats, lower, next);
      PlacementsFromShape(cats, lower, path, kids[1..]);
      assert PlacementsFrom(cats, lower, path, kids) == [Placed(k, path)] + mid + rest;
      forall x | x in mid
        ensures Below(cats, path, kids, x)
      {
        assert x.ancestors[..|next|] == next;
        assert x.ancestors[..|path|] == x.ancestors[..|next|][..|path|];
        assert next[..|path|] == path;
        assert x.ancestors[|path|] == x.ancestors[..|next|][|path|] == k;
      }
      assert Full(Placed(k, path)) == next;
    }
  }

  /** No placement is listed twice. */
  lemma {:induction false} PlacementsDistinct(cats: seq<Category>, lower: string -> string, path: seq<Category>)
    requires UniqueQboIds(cats) && IsChain(cats, path)
    ensures Distinct(Placements(cats, lower, path))
    decreases |cats| - |path|, 1, 0
  {
    ChildrenFacts(cats, lower, path);
    PlacementsFromDistinct(cats, lower, path, Children(cats, lower, Key(path)));
  }

  lemma {:induction false} PlacementsFromDistinct(cats: seq<Category>, lower: string -> string, path: seq<Category>, kids: seq<Category>)
    requires UniqueQboIds(cats) && IsChain(cats, path) && KidsOf(cats, path, kids)
    requires Distinct(kids)
    ensures Distinct(PlacementsFrom(cats, lower, path, kids))
    decreases |cats| - |path|, 0, |kids|
  {
    if kids != [] {
      var k := kids[0];
      var next := path + [k];
      ChainExtends(cats, path, k);
      var head := [Placed(k, path)];
      var mid := Placements(cats, lower, next);
      var rest := PlacementsFrom(cats, lower, path, kids[1..]);
      assert PlacementsFrom(cats, lower, path, kids) == head + mid + rest;
      DistinctTail(kids);
      PlacementsDistinct(cats, lower, next);
      PlacementsFromDistinct(cats, lower, path, kids[1..]);
      PlacementsShape(cats, lower, next);
      PlacementsFromShape(cats, lower, path, kids[1..]);
      forall x | x in head + mid
        ensures x !in rest
      {
        if x in mid {
          assert |x.ancestors| > |path|;
          assert x.ancestors[..|next|] == next;
          assert x.ancestors[|path|] == x.ancestors[..|next|][|path|] == k;
        }
      }
      DistinctConcat(head, mid);
      DistinctConcat(head + mid, rest);
    }
  }

  /** Every placement below depth `d` has its parent's placement listed before it. */
  ghost predicate ParentsFirst(s: seq<Placed>, d: int) {
    forall i :: 0 <= i < |s| && |s[i].ancestors| > d ==>
      exists j :: 0 <= j < i && Full(s[j]) == s[i].ancestors
  }

  lemma ParentsFirstConcat(a: seq<Placed>, b: seq<Placed>, d: int)
    requires ParentsFirst(a, d) && ParentsFirst(b, d)
    ensures ParentsFirst(a + b, d)
  {
    var s := a + b;
    forall i | 0 <= i < |s| && |s[i].ancestors| > d
      ensures exists j :: 0 <= j < i && Full(s[j]) == s[i].ancestors
    {
      if i < |a| {
        assert s[i] == a[i];
        var j :| 0 <= j < i && Full(a[j]) == a[i].ancestors;
        assert s[j] == a[j];
      } else {
        assert s[i] == b[i - |a|];
        var j :| 0 <= j < i - |a| && Full(b[j]) == b[i - |a|].ancestors;
        assert s[j + |a|] == b[j];
      }
    }
  }

  /** A node's placement followed by its subtree, whose top entries are its children. */
  lemma ParentsFirstCons(h: Placed, s: seq<Placed>, d: int)
    requires |h.ancestors| == d
    requires ParentsFirst(s, d + 1)
    requires forall x :: x in s ==> |x.ancestors| >= d + 1 && x.ancestors[..d + 1] == Full(h)
    ensures ParentsFirst([h] + s, d)
  {
    var t := [h] + s;
    forall i | 0 <= i < |t| && |t[i].ancestors| > d
      ensures exists j :: 0 <= j < i && Full(t[j]) == t[i].ancestors
    {
      assert i > 0 && t[i] == s[i - 1];
      if |s[i - 1].ancestors| > d + 1 {
        var j :| 0 <= j < i - 1 && Full(s[j]) == s[i - 1].ancestors;
        assert t[j + 1] == s[j];
      } else {
        assert s[i - 1] in s;
        assert s[i - 1].ancestors == s[i - 1].ancestors[..d + 1];
        assert Full(t[0]) == t[i].ancestors;
      }
    }
  }

  lemma {:induction false} PlacementsParentsFirst(cats: seq<Category>, lower: string -> string, path: seq<Category>)
    requires UniqueQboIds(cats) && IsChain(cats, path)
    ensures ParentsFirst(Placements(cats, lower, path), |path|)
    decreases |cats| - |path|, 1, 0
  {
    ChildrenFacts(cats, lower, path);
    PlacementsFromParentsFirst(cats, lower, path, Children(cats, lower, Key(path)));
  }

  lemma {:induction false} PlacementsFromParentsFirst(cats: seq<Category>, lower: string -> string, path: seq<Category>, kids: seq<Category>)
    requires UniqueQboIds(cats) && IsChain(cats, path) && KidsOf(cats, path, kids)
    ensures ParentsFirst(PlacementsFrom(cats, lower, path, kids), |path|)
    decreases |cats| - |path|, 0, |kids|
  {
    if kids != [] {
      var k := kids[0];
      var next := path + [k];
      ChainExtends(cats, path, k);
      var h := Placed(k, path);
      var mid := Placements(cats, lower, next);
      var rest := PlacementsFrom(cats, lower, path, kids[1..]);
      assert PlacementsFrom(cats, lower, path, kids) == [h] + mid + rest;
      PlacementsParentsFirst(cats, lower, next);
      PlacementsShape(cats, lower, next);
      assert Full(h) == next;
      ParentsFirstCons(h, mid, |path|);
      PlacementsFromParentsFirst(cats, lower, path, kids[1..]);
      ParentsFirstConcat([h] + mid, rest, |path|);
    }
  }

  /** Every chain below `path` is listed under `path`. */
  lemma {:induction false} PlacementsComplete(cats: seq<Category>, lower: string -> string, path: seq<Category>, x: Placed)
    requires UniqueQboIds(cats) && IsChain(cats, path)
    requires IsChain(cats, Full(x)) && |x.ancestors| >= |path| && x.ancestors[..|path|] == path
    ensures x in Placements(cats, lower, path)
    decreases |cats| - |path|, 1, 0
  {
    ChildrenFacts(cats, lower, path);
    var full := Full(x);
    var k := full[|path|];
    assert k in cats;
    assert |path| > 0 ==> full[|path| - 1] == path[|path| - 1];
    assert k.parentId == Key(path);
    var p := (c: Category) => c.parentId == Key(path);
    FilterMember(cats, p, k);
    SortByMembers(Filter(cats, p), NameOrder(lower), k);
    PlacementsFromComplete(cats, lower, path, Children(cats, lower, Key(path)), x);
  }

  lemma {:induction false} PlacementsFromComplete(cats: seq<Category>, lower: string -> string, path: seq<Category>, kids: seq<Category>, x: Placed)
    requires UniqueQboIds(cats) && IsChain(cats, path) && KidsOf(cats, path, kids)
    requires IsChain(cats, Full(x)) && |x.ancestors| >= |path| && x.ancestors[..|path|] == path
    requires Full(x)[|path|] in kids
    ensures x in PlacementsFrom(cats, lower, path, kids)
    decreases |cats| - |path|, 0, |kids|
  {
    var k := kids[0];
    var next := path + [k];
    ChainExtends(cats, path, k);
    var mid := Placements(cats, lower, next);
    var rest := PlacementsFrom(cats, lower, path, kids[1..]);
    assert PlacementsFrom(cats, lower, path, kids) == [Placed(k, path)] + mid + rest;
    if Full(x)[|path|] == k {
      if |x.ancestors| == |path| {
        assert x.ancestors == x.ancestors[..|path|];
        assert x == Placed(k, path);
      } else {
        assert x.ancestors[..|next|] == x.ancestors[..|path|] + [x.ancestors[|path|]];
        PlacementsComplete(cats, lower, next, x);
      }
    } else {
      PlacementsFromComplete(cats, lower, path, kids[1..], x);
    }
  }

  /** Placements with the same ancestors (siblings) are listed in sibling order. */
  ghost predicate SiblingsOrdered(s: seq<Placed>, lt: (Category, Category) -> bool) {
    forall i, j :: 0 <= i < j < |s| && s[i].ancestors == s[j].ancestors ==> !lt(s[j].category, s[i].category)
  }

  lemma SiblingsOrderedConcat(a: seq<Placed>, b: seq<Placed>, lt: (Category, Category) -> bool)
    requires SiblingsOrdered(a, lt) && SiblingsOrdered(b, lt)
    requires forall x, y :: x in a && y in b && x.ancestors == y.ancestors ==> !lt(y.category, x.category)
    ensures SiblingsOrdered(a + b, lt)
  {
    var s := a + b;
    forall i, j | 0 <= i < j < |s| && s[i].ancestors == s[j].ancestors
      ensures !lt(s[j].category, s[i].category)
    {
      if j < |a| {
        assert s[i] == a[i] && s[j] == a[j];
      } else if i >= |a| {
        assert s[i] == b[i - |a|] && s[j] == b[j - |a|];
      } else {
        assert s[i] == a[i] && s[j] == b[j - |a|];
        assert a[i] in a && b[j - |a|] in b;
      }
    }
  }

  lemma {:induction false} PlacementsSiblingsOrdered(cats: seq<Category>, lower: string -> string, path: seq<Category>)
    requires UniqueQboIds(cats) && IsChain(cats, path)
    ensures SiblingsOrdered(Placements(cats, lower, path), NameOrder(lower))
    decreases |cats| - |path|, 1, 0
  {
    ChildrenFacts(cats, lower, path);
    PlacementsFromSiblingsOrdered(cats, lower, path, Children(cats, lower, Key(path)));
  }

  lemma {:induction false} PlacementsFromSiblingsOrdered(cats: seq<Category>, lower: string -> string, path: seq<Category>, kids: seq<Category>)
    requires UniqueQboIds(cats) && IsChain(cats, path) && KidsOf(cats, path, kids)
    requires Distinct(kids) && Sorted(kids, NameOrder(lower))
    ensures SiblingsOrdered(PlacementsFrom(cats, lower, path, kids), NameOrder(lower))
    decreases |cats| - |path|, 0, |kids|
  {
    if kids != [] {
      var lt := NameOrder(lower);
      var k := kids[0];
      var next := path + [k];
      ChainExtends(cats, path, k);
      var head := [Placed(k, path)];
      var mid := Placements(cats, lower, next);
      var rest := PlacementsFrom(cats, lower, path, kids[1..]);
      assert PlacementsFrom(cats, lower, path, kids) == head + mid + rest;
      DistinctTail(kids);
      assert Sorted(kids[1..], lt) by {
        forall i, j | 0 <= i < j < |kids[1..]|
          ensures !lt(kids[1..][j], kids[1..][i])
        {
          assert kids[1..][i] == kids[i + 1] && kids[1..][j] == kids[j + 1];
        }
      }
      PlacementsSiblingsOrdered(cats, lower, next);
      PlacementsFromSiblingsOrdered(cats, lower, path, kids[1..]);
      PlacementsShape(cats, lower, next);
      PlacementsFromShape(cats, lower, path, kids[1..]);
      SiblingsOrderedConcat(head, mid, lt);
      forall x | x in mid
        ensures |x.ancestors| > |path| && x.ancestors[|path|] == k
      {
        assert x.ancestors[..|next|] == next;
        assert x.ancestors[|path|] == x.ancestors[..|next|][|path|];
      }
      forall x: Placed, y: Placed | x in head + mid && y in rest && x.ancestors == y.ancestors
        ensures !lt(y.category, x.category)
      {
        assert x == head[0];
        var m :| 0 <= m < |kids[1..]| && kids[1..][m] == y.category;
        assert kids[m + 1] == y.category;
      }
      SiblingsOrderedConcat(head + mid, rest, lt);
    }
  }

  /** Two chains ending in the same category are the same chain. */
  lemma {:induction false} ChainDeterminedByLast(cats: seq<Category>, a: seq<Category>, b: seq<Category>)
    requires UniqueQboIds(cats) && IsChain(cats, a) && IsChain(cats, b)
    requires a != [] && b != []
    ensures a[|a| - 1] == b[|b| - 1] ==> a == b
    decreases |a|
  {
    if a[|a| - 1] == b[|b| - 1] {
      var c := a[|a| - 1];
      assert |a| > 1 ==> a[|a| - 1].parentId == Some(a[|a| - 2].qboId);
      assert |b| > 1 ==> b[|b| - 1].parentId == Some(b[|b| - 2].qboId);
      if |a| == 1 || |b| == 1 {
        assert |a| == 1 && |b| == 1;
      } else {
        var a', b' := a[..|a| - 1], b[..|b| - 1];
        IsChainPrefix(cats, a, |a| - 1);
        IsChainPrefix(cats, b, |b| - 1);
        UniqueQboIdsMembers(cats, a'[|a'| - 1], b'[|b'| - 1]);
        ChainDeterminedByLast(cats, a', b');
        assert a == a' + [c] && b == b' + [c];
      }
    }
  }

  /** Every entry is an input category; roots (and only roots) have depth 0, and every other
      entry's parent is listed before it, one level up. */
  lemma CategoryTreeDepths(cats: seq<Category>, lower: string -> string)
    requires UniqueQboIds(cats)
    ensures var t := BuildCategoryTree(cats, lower);
            forall i :: 0 <= i < |t| ==>
              && t[i].0 in cats
              && (t[i].1 == 0 <==> t[i].0.parentId == None)
              && (t[i].1 > 0 ==>
                    exists j :: 0 <= j < i && t[j].1 == t[i].1 - 1 && t[i].0.parentId == Some(t[j].0.qboId))
  {
    var t := BuildCategoryTree(cats, lower);
    forall i | 0 <= i < |t|
      ensures t[i].0 in cats
      ensures t[i].1 == 0 <==> t[i].0.parentId == None
      ensures t[i].1 > 0 ==>
                exists j :: 0 <= j < i && t[j].1 == t[i].1 - 1 && t[i].0.parentId == Some(t[j].0.qboId)
    {
      CategoryTreeDepthAt(cats, lower, i);
    }
  }

  /** The entry at index `i` of the tree, as in `CategoryTreeDepths`. */
  lemma CategoryTreeDepthAt(cats: seq<Category>, lower: string -> string, i: nat)
    requires UniqueQboIds(cats) && i < |BuildCategoryTree(cats, lower)|
    ensures var t := BuildCategoryTree(cats, lower);
            && t[i].0 in cats
            && (t[i].1 == 0 <==> t[i].0.parentId == None)
            && (t[i].1 > 0 ==>
                  exists j :: 0 <= j < i && t[j].1 == t[i].1 - 1 && t[i].0.parentId == Some(t[j].0.qboId))
  {
    var ps := Placements(cats, lower, []);
    var t := BuildCategoryTree(cats, lower);
    PlacementsShape(cats, lower, []);
    var x := ps[i];
    assert t[i] == EntryOf(x);
    assert x in ps;
    PlacedOnChain(cats, x);
    if |x.ancestors| > 0 {
      PlacementsParentsFirst(cats, lower, []);
      var j :| 0 <= j < i && Full(ps[j]) == x.ancestors;
      LastOfFull(ps[j]);
      assert t[j] == EntryOf(ps[j]);
    }
  }

  /** A placement on a chain: its category is an input one, a root exactly when it has no
      ancestors, and otherwise a child of its last ancestor. */
  lemma PlacedOnChain(cats: seq<Category>, x: Placed)
    requires IsChain(cats, Full(x))
    ensures x.category in cats
    ensures |x.ancestors| == 0 <==> x.category.parentId == None
    ensures |x.ancestors| > 0 ==> x.category.parentId == Some(x.ancestors[|x.ancestors| - 1].qboId)
  {
    var f := Full(x);
    var n := |x.ancestors|;
    assert f[n] == x.category;
    if n > 0 {
      assert f[n - 1] == x.ancestors[n - 1];
    }
  }

  lemma LastOfFull(x: Placed)
    ensures |Full(x)| == |x.ancestors| + 1 && Full(x)[|x.ancestors|] == x.category
  {
  }

  /** Each entry's category is reached from a root through a chain as long as its depth plus one:
      a category whose parent chain never reaches a root is not listed. */
  lemma CategoryTreeOnlyReachable(cats: seq<Category>, lower: string -> string, i: int)
    requires UniqueQboIds(cats)
    requires 0 <= i < |BuildCategoryTree(cats, lower)|
    ensures var t := BuildCategoryTree(cats, lower);
            exists chain :: IsChain(cats, chain) && |chain| == t[i].1 + 1 && chain[|chain| - 1] == t[i].0
  {
    var ps := Placements(cats, lower, []);
    PlacementsShape(cats, lower, []);
    assert ps[i] in ps;
    var chain := Full(ps[i]);
    assert chain[|chain| - 1] == ps[i].category;
  }

  /** Every category reached from a root through a chain is listed, at depth one less than the
      chain's length. */
  lemma CategoryTreeComplete(cats: seq<Category>, lower: string -> string, chain: seq<Category>)
    requires UniqueQboIds(cats) && IsChain(cats, chain) && chain != []
    ensures (chain[|chain| - 1], |chain| - 1) in BuildCategoryTree(cats, lower)
  {
    var x := Placed(chain[|chain| - 1], chain[..|chain| - 1]);
    assert Full(x) == chain;
    PlacementsComplete(cats, lower, [], x);
    var ps := Placements(cats, lower, []);
    var k :| 0 <= k < |ps| && ps[k] == x;
    assert BuildCategoryTree(cats, lower)[k] == EntryOf(x);
  }

  /** No category is listed twice. */
  lemma CategoryTreeExactlyOnce(cats: seq<Category>, lower: string -> string)
    requires UniqueQboIds(cats)
    ensures var t := BuildCategoryTree(cats, lower);
            forall i, j :: 0 <= i < j < |t| ==> t[i].0 != t[j].0
  {
    var ps := Placements(cats, lower, []);
    var t := BuildCategoryTree(cats, lower);
    PlacementsShape(cats, lower, []);
    PlacementsDistinct(cats, lower, []);
    forall i, j | 0 <= i < j < |t|
      ensures t[i].0 != t[j].0
    {
      var a, b := Full(ps[i]), Full(ps[j]);
      assert ps[i] in ps && ps[j] in ps;
      assert a[..|a| - 1] == ps[i].ancestors && b[..|b| - 1] == ps[j].ancestors;
      assert a != b;
      ChainDeterminedByLast(cats, a, b);
      assert t[i].0 == a[|a| - 1] && t[j].0 == b[|b| - 1];
    }
  }

  /** Entries with the same parent appear in order of lower-cased name. */
  lemma CategoryTreeSiblingsSorted(cats: seq<Category>, lower: string -> string)
    requires UniqueQboIds(cats)
    ensures var t := BuildCategoryTree(cats, lower);
            forall i, j :: 0 <= i < j < |t| && t[i].0.parentId == t[j].0.parentId ==>
              !NameOrder(lower)(t[j].0, t[i].0)
  {
    var ps := Placements(cats, lower, []);
    var t := BuildCategoryTree(cats, lower);
    PlacementsShape(cats, lower, []);
    PlacementsSiblingsOrdered(cats, lower, []);
    forall i, j | 0 <= i < j < |t| && t[i].0.parentId == t[j].0.parentId
      ensures !NameOrder(lower)(t[j].0, t[i].0)
    {
      assert ps[i] in ps && ps[j] in ps;
      assert t[i] == EntryOf(ps[i]) && t[j] == EntryOf(ps[j]);
      SameParentSameAncestors(cats, ps[i], ps[j]);
    }
  }

  lemma SameParentSameAncestors(cats: seq<Category>, x: Placed, y: Placed)
    requires UniqueQboIds(cats) && IsChain(cats, Full(x)) && IsChain(cats, Full(y))
    requires x.category.parentId == y.category.parentId
    ensures x.ancestors == y.ancestors
  {
    var a, b := Full(x), Full(y);
    var m, n := |x.ancestors|, |y.ancestors|;
    assert a[m] == x.category && b[n] == y.category;
    assert m > 0 ==> a[m].parentId == Some(a[m - 1].qboId);
    assert n > 0 ==> b[n].parentId == Some(b[n - 1].qboId);
    if m > 0 && n > 0 {
      IsChainPrefix(cats, a, m);
      IsChainPrefix(cats, b, n);
      assert a[..m] == x.ancestors && b[..n] == y.ancestors;
      UniqueQboIdsMembers(cats, a[m - 1], b[n - 1]);
      ChainDeterminedByLast(cats, x.ancestors, y.ancestors);
    }
  }

  // ---------------------------------------------------------------------------------------
  // CategoryList.filter
  // ---------------------------------------------------------------------------------------

  /** The filter's test: the query occurs in the lower-cased full name or name. */
  predicate MatchesQuery(lower: string -> string, query: string, e: Entry) {
    Strings.Contains(lower(e.0.fullName), query) || Strings.Contains(lower(e.0.name), query)
  }

  /** The entries `filter(query)` keeps. */
  function FilteredTree(tree: seq<Entry>, lower: string -> string, query: string): (r: seq<Entry>)
    ensures Strings.Strip(lower(query)) == [] ==> r == tree
    ensures |r| <= |tree|
  {
    var q := Strings.Strip(lower(query));
    if q == [] then tree else Filter(tree, (e: Entry) => MatchesQuery(lower, q, e))
  }

  /** A query that is blank once lower-cased and stripped restores the whole tree; any other
      keeps, in tree order and with their depths, exactly the entries that match it. */
  lemma FilteredTreeSpec(tree: seq<Entry>, lower: string -> string, query: string, e: Entry)
    ensures var q := Strings.Strip(lower(query));
            var r := FilteredTree(tree, lower, query);
            && (q == [] ==> r == tree)
            && (q != [] ==> (e in r <==> e in tree && MatchesQuery(lower, q, e)))
            && |r| <= |tree|
  {
    var q := Strings.Strip(lower(query));
    FilterMember(tree, (x: Entry) => MatchesQuery(lower, q, x), e);
  }

  /** Filtering keeps tree order: the kept entries are the tree with the others removed. */
  lemma FilteredTreeKeepsOrder(tree: seq<Entry>, lower: string -> string, query: string, k: nat)
    requires k <= |tree|
    requires Strings.Strip(lower(query)) != []
    ensures FilteredTree(tree[..k], lower, query) + FilteredTree(tree[k..], lower, query)
            == FilteredTree(tree, lower, query)
  {
    var q := Strings.Strip(lower(query));
    assert tree == tree[..k] + tree[k..];
    FilterConcat(tree[..k], tree[k..], (x: Entry) => MatchesQuery(lower, q, x));
  }

  /** `CategoryList`: the tree of the categories and the entries the filter currently shows. */
  class CategoryList {
    const tree: seq<Entry>
    const lower: string -> string
    var filteredTree: seq<Entry>

    constructor(categories: seq<Category>, lower: string -> string)
      requires UniqueQboIds(categories)
      ensures tree == BuildCategoryTree(categories, lower) && this.lower == lower
      ensures filteredTree == tree
    {
      this.lower := lower;
      tree := BuildCategoryTree(categories, lower);
      filteredTree := BuildCategoryTree(categories, lower);
    }

    /** `filter`. */
    method FilterBy(query: string)
      modifies this`filteredTree
      ensures filteredTree == FilteredTree(tree, lower, query)
    {
      var q := Strings.Strip(lower(query));
      if q == [] {
        filteredTree := tree;
      } else {
        filteredTree := Filter(tree, (e: Entry) => MatchesQuery(lower, q, e));
      }
    }
  }

  // ---------------------------------------------------------------------------------------
  // ManageCategoryList
  // ---------------------------------------------------------------------------------------

  /** A `ManageCategoryListItem`: a category, its depth and its checkbox state. */
  datatype Item = Item(category: Category, depth: int, isVisible: bool)

  /** The flag an item shows: a recorded change wins over the stored `is_visible`. */
  function ShownVisibility(c: Category, changes: map<int, bool>): (v: bool)
    ensures c.id.Some? && c.id.value in changes ==> v == changes[c.id.value]
    ensures c.id.None? || c.id.value !in changes ==> v == c.isVisible
  {
    if c.id.Some? && c.id.value in changes then changes[c.id.value] else c.isVisible
  }

  function ShownItem(e: Entry, changes: map<int, bool>): Item {
    Item(e.0, e.1, ShownVisibility(e.0, changes))
  }

  /** The items `_refresh_list` builds. */
  function ShownItems(tree: seq<Entry>, changes: map<int, bool>): (r: seq<Item>)
  {
    Map(tree, (e: Entry) => ShownItem(e, changes))
  }

  /** The item list with every checkbox set to `visible`. */
  function WithVisibility(items: seq<Item>, visible: bool): (r: seq<Item>)
  {
    Map(items, (it: Item) => it.(isVisible := visible))
  }

  /** An item whose checkbox `set_visible(visible)` flips: its `Checkbox.Changed` is then
      recorded under its category id by `on_checkbox_changed`. */
  predicate Flips(it: Item, visible: bool) {
    it.isVisible != visible && it.category.id.Some?
  }

  /** The changes recorded once the `Checkbox.Changed` events of setting every item of `items`
      to `visible` are handled, in list order, on top of `changes`. */
  function RecordedFlips(items: seq<Item>, visible: bool, changes: map<int, bool>): (r: map<int, bool>)
  {
    if items == [] then changes
    else
      var before := RecordedFlips(items[..|items| - 1], visible, changes);
      var it := items[|items| - 1];
      if Flips(it, visible) then before[it.category.id.value := visible] else before
  }

  /** The recorded changes gain exactly the ids of the flipped items, each with the new state;
      every other recorded change is kept. */
  lemma {:induction false} RecordedFlipsSpec(items: seq<Item>, visible: bool, changes: map<int, bool>)
    ensures var r := RecordedFlips(items, visible, changes);
            forall k :: k in r <==>
              k in changes || exists i :: 0 <= i < |items| && Flips(items[i], visible) && items[i].category.id == Some(k)
    ensures forall i :: 0 <= i < |items| && Flips(items[i], visible) ==>
              && items[i].category.id.value in RecordedFlips(items, visible, changes)
              && RecordedFlips(items, visible, changes)[items[i].category.id.value] == visible
    ensures forall k :: k in changes && (forall i :: 0 <= i < |items| && Flips(items[i], visible) ==> items[i].category.id != Some(k)) ==>
              RecordedFlips(items, visible, changes)[k] == changes[k]
  {
    if items != [] {
      var init := items[..|items| - 1];
      RecordedFlipsSpec(init, visible, changes);
      assert forall i :: 0 <= i < |init| ==> init[i] == items[i];
    }
  }

  /** A `toggle_all` that flips an item with an id leaves a change to save. */
  lemma ToggleAllLeavesChangeToSave(items: seq<Item>, changes: map<int, bool>, i: int)
    requires 0 <= i < |items| && Flips(items[i], MajorityToggle(items))
    ensures SaveDecision(RecordedFlips(items, MajorityToggle(items), changes)).Some?
  {
    RecordedFlipsSpec(items, MajorityToggle(items), changes);
  }

  predicate IsVisibleItem(it: Item) {
    it.isVisible
  }

  /** The number of checked items. */
  function VisibleCount(items: seq<Item>): (n: nat)
    ensures n <= |items|
  {
    Count(items, IsVisibleItem)
  }

  /** `new_visible` in `toggle_all`. */
  predicate MajorityToggle(items: seq<Item>)
    ensures MajorityToggle(items) <==> 2 * VisibleCount(items) <= |items|
    ensures items == [] ==> MajorityToggle(items)
  {
    VisibleCount(items) <= |items| / 2
  }

  lemma {:induction false} VisibleCountUniform(items: seq<Item>, visible: bool)
    ensures VisibleCount(WithVisibility(items, visible)) == if visible then |items| else 0
  {
    if items != [] {
      VisibleCountUniform(items[1..], visible);
      assert WithVisibility(items, visible)[1..] == WithVisibility(items[1..], visible);
    }
  }

  /** After `toggle_all` every item shows the same state: checked when at most half were
      checked, hidden otherwise; categories and depths are kept. */
  lemma ToggleAllOutcome(items: seq<Item>)
    ensures var r := WithVisibility(items, MajorityToggle(items));
            && |r| == |items|
            && (forall i :: 0 <= i < |r| ==>
                  r[i].category == items[i].category && r[i].depth == items[i].depth
                  && (r[i].isVisible <==> 2 * VisibleCount(items) <= |items|))
  {
  }

  /** On a non-empty list `toggle_all` alternates: a second call undoes the first. */
  lemma ToggleAllAlternates(items: seq<Item>)
    requires items != []
    ensures MajorityToggle(WithVisibility(items, MajorityToggle(items))) == !MajorityToggle(items)
    ensures var once := WithVisibility(items, MajorityToggle(items));
            WithVisibility(once, MajorityToggle(once)) == WithVisibility(items, !MajorityToggle(items))
  {
    var v := MajorityToggle(items);
    var once := WithVisibility(items, v);
    VisibleCountUniform(items, v);
    var twice := WithVisibility(once, MajorityToggle(once));
    assert |twice| == |items|;
    forall i | 0 <= i < |items|
      ensures twice[i] == WithVisibility(items, !v)[i]
    {
    }
  }

  /** A recorded change shows on the item for that category id; other items are unaffected. */
  lemma RecordedChangeShown(c: Category, changes: map<int, bool>, id: int, value: bool)
    ensures c.id == Some(id) ==> ShownVisibility(c, changes[id := value]) == value
    ensures c.id != Some(id) ==> ShownVisibility(c, changes[id := value]) == ShownVisibility(c, changes)
  {
  }

  /** `ManageCategoryList`: the categories, their tree, the changes recorded so far and the
      items on display. */
  class ManageCategoryList {
    const allCategories: seq<Category>
    const lower: string -> string
    var tree: seq<Entry>
    var visibilityChanges: map<int, bool>
    var items: seq<Item>

    constructor(categories: seq<Category>, lower: string -> string)
      requires UniqueQboIds(categories)
      ensures allCategories == categories && this.lower == lower
      ensures tree == BuildCategoryTree(categories, lower)
      ensures visibilityChanges == map[] && items == []
    {
      allCategories := categories;
      this.lower := lower;
      tree := BuildCategoryTree(categories, lower);
      visibilityChanges := map[];
      items := [];
    }

    /** `record_checkbox_change`: a checkbox without a category id records nothing. */
    method RecordCheckboxChange(categoryId: Option<int>, value: bool)
      modifies this`visibilityChanges
      ensures categoryId.Some? ==> visibilityChanges == old(visibilityChanges)[categoryId.value := value]
      ensures categoryId.None? ==> visibilityChanges == old(visibilityChanges)
    {
      if categoryId.Some? {
        visibilityChanges := visibilityChanges[categoryId.value := value];
      }
    }

    /** `set_all_visible`: only the items whose state differs are changed, and each flipped
        checkbox's `Checkbox.Changed` is recorded by the screen's `on_checkbox_changed`. */
    method SetAllVisible(visible: bool)
      modifies this`items, this`visibilityChanges
      ensures items == WithVisibility(old(items), visible)
      ensures visibilityChanges == RecordedFlips(old(items), visible, old(visibilityChanges))
    {
      var i := 0;
      while i < |items|
        invariant 0 <= i <= |items| == |old(items)|
        invariant forall k :: 0 <= k < i ==> items[k] == old(items)[k].(isVisible := visible)
        invariant forall k :: i <= k < |items| ==> items[k] == old(items)[k]
        invariant visibilityChanges == RecordedFlips(old(items)[..i], visible, old(visibilityChanges))
      {
        assert old(items)[..i + 1][..i] == old(items)[..i];
        if items[i].isVisible != visible {
          var id := items[i].category.id;
          items := items[i := items[i].(isVisible := visible)];
          RecordCheckboxChange(id, visible);
        }
        i := i + 1;
      }
      assert old(items)[..|old(items)|] == old(items);
    }

    /** `ManageCategoryListItem.toggle` on the highlighted item, if any: its checkbox flips and
        the change is recorded. */
    method ToggleSelected(highlighted: Option<nat>)
      modifies this`items, this`visibilityChanges
      ensures highlighted.None? || highlighted.value >= |old(items)| ==>
                items == old(items) && visibilityChanges == old(visibilityChanges)
      ensures highlighted.Some? && highlighted.value < |old(items)| ==>
                var it := old(items)[highlighted.value];
                && items == old(items)[highlighted.value := it.(isVisible := !it.isVisible)]
                && visibilityChanges == (if it.category.id.Some?
                                         then old(visibilityChanges)[it.category.id.value := !it.isVisible]
                                         else old(visibilityChanges))
    {
      if highlighted.Some? && highlighted.value < |items| {
        var it := items[highlighted.value];
        items := items[highlighted.value := it.(isVisible := !it.isVisible)];
        RecordCheckboxChange(it.category.id, !it.isVisible);
      }
    }

    /** `toggle_all`. */
    method ToggleAll()
      modifies this`items, this`visibilityChanges
      ensures items == WithVisibility(old(items), MajorityToggle(old(items)))
      ensures visibilityChanges == RecordedFlips(old(items), MajorityToggle(old(items)), old(visibilityChanges))
    {
      var visibleCount := VisibleCount(items);
      var total := |items|;
      var newVisible := visibleCount <= total / 2;
      SetAllVisible(newVisible);
    }

    /** `get_visibility_changes`: a copy, which later changes to the list do not affect. */
    method GetVisibilityChanges() returns (changes: map<int, bool>)
      ensures changes == visibilityChanges
    {
      changes := visibilityChanges;
    }

    /** `_refresh_list`. */
    method RefreshList()
      modifies this`items
      ensures items == ShownItems(tree, visibilityChanges)
      ensures forall i :: 0 <= i < |items| ==>
                items[i].category == tree[i].0 && items[i].depth == tree[i].1
                && items[i].isVisible == ShownVisibility(tree[i].0, visibilityChanges)
    {
      var shown: seq<Item> := [];
      var i := 0;
      while i < |tree|
        invariant 0 <= i <= |tree|
        invariant |shown| == i
        invariant forall k :: 0 <= k < i ==> shown[k] == ShownItem(tree[k], visibilityChanges)
      {
        var category := tree[i].0;
        var isVisible := category.isVisible;
        if category.id.Some? && category.id.value in visibilityChanges {
          isVisible := visibilityChanges[category.id.value];
        }
        shown := shown + [Item(category, tree[i].1, isVisible)];
        i := i + 1;
      }
      items := shown;
    }

    /** `refresh_categories`. */
    method RefreshCategories()
      requires UniqueQboIds(allCategories)
      modifies this`tree, this`items
      ensures tree == BuildCategoryTree(allCategories, lower)
      ensures items == ShownItems(tree, visibilityChanges)
    {
      tree := BuildCategoryTree(allCategories, lower);
      RefreshList();
    }
  }

  // ---------------------------------------------------------------------------------------
  // Dialog decisions
  // ---------------------------------------------------------------------------------------

  /** `ManageCategoriesScreen.action_save`: dismiss with the changes, or with None when there
      are none. */
  function SaveDecision(changes: map<int, bool>): (r: Option<map<int, bool>>)
    ensures r.None? <==> |changes| == 0
    ensures r.Some? ==> r.value == changes
  {
    if |changes| == 0 then None else Some(changes)
  }

  /** `TextInputScreen.action_submit`: the stripped value, or None (the warning) when it is
      empty. */
  function SubmitDecision(value: string): (r: Option<string>)
    ensures r.None? <==> Strings.Strip(value) == []
    ensures r.Some? ==> r.value != [] && !Strings.IsSpace(r.value[0]) && !Strings.IsSpace(r.value[|r.value| - 1])
  {
    var v := Strings.Strip(value);
    if v != [] then Some(v) else None
  }

  /** An input made only of whitespace is refused. */
  lemma SubmitRefusesBlank(value: string)
    ensures SubmitDecision(value).None? <==> forall i :: 0 <= i < |value| ==> Strings.IsSpace(value[i])
  {
    Strings.StripEmptyIff(value);
  }

  /** A submitted value is the piece of the input left once its surrounding whitespace is
      removed: it neither starts nor ends with whitespace and stripping it again changes nothing. */
  lemma SubmittedIsTrimmed(value: string)
    requires SubmitDecision(value).Some?
    ensures Strings.Strip(SubmitDecision(value).value) == SubmitDecision(value).value
    ensures !Strings.IsSpace(SubmitDecision(value).value[0])
    ensures var v := SubmitDecision(value).value;
            var i := Strings.StripStart(value);
            i + |v| <= |value| && v == value[i..i + |v|]
  {
    var v := Strings.Strip(value);
    assert SubmitDecision(value).value == v;
    Strings.StripIsInfix(value);
    Strings.StripIdempotent(value);
  }
}
