/** Listing the image files of a reference folder and embedding the first few of them.
    The folder listing and the face embedder are inputs: the model sees the names the
    directory holds and, per name, the embedding vector the embedder returns, if any. */
module Images {
  import opened Wrappers

  /** A face embedding vector. */
  type Embedding = seq<real>

  // ---------------------------------------------------------------------------
  // Names that count as images
  // ---------------------------------------------------------------------------

  function LowerChar(c: char): char
  {
    if 'A' <= c <= 'Z' then (c as int + 32) as char else c
  }

  /** Lower-cases the ASCII letters of a name and leaves every other character alone. */
  function Lower(s: string): (r: string)
    ensures |r| == |s|
  {
    seq(|s|, i requires 0 <= i < |s| => LowerChar(s[i]))
  }

  predicate EndsWith(s: string, suffix: string)
  {
    |suffix| <= |s| && s[|s| - |suffix|..] == suffix
  }

  /** A name is an image when its lower-cased form ends in one of the three extensions. */
  predicate IsImageName(name: string)
  {
    var l := Lower(name);
    EndsWith(l, ".jpg") || EndsWith(l, ".jpeg") || EndsWith(l, ".png")
  }

  /** The image names of a listing, in listing order. */
  function FilterImages(names: seq<string>): seq<string>
  {
    if names == [] then []
    else if IsImageName(names[0]) then [names[0]] + FilterImages(names[1..])
    else FilterImages(names[1..])
  }

  /** Each image name keeps its multiplicity and every other name is dropped. */
  lemma {:induction false} FilterImagesCounts(names: seq<string>)
    ensures forall x :: multiset(FilterImages(names))[x] == if IsImageName(x) then multiset(names)[x] else 0
  {
    if names != [] {
      assert names == [names[0]] + names[1..];
      FilterImagesCounts(names[1..]);
    }
  }

  // ---------------------------------------------------------------------------
  // String order and sorting
  // ---------------------------------------------------------------------------

  /** The order on strings: lexicographic by code point, a proper prefix first. */
  predicate LexLe(a: string, b: string)
    decreases |a|
  {
    |a| == 0 || (|b| > 0 && (a[0] < b[0] || (a[0] == b[0] && LexLe(a[1..], b[1..]))))
  }

  lemma {:induction false} LexLeTotal(a: string, b: string)
    ensures LexLe(a, b) || LexLe(b, a)
    decreases |a|
  {
    if |a| > 0 && |b| > 0 && a[0] == b[0] {
      LexLeTotal(a[1..], b[1..]);
    }
  }

  lemma {:induction false} LexLeAntisymmetric(a: string, b: string)
    requires LexLe(a, b) && LexLe(b, a)
    ensures a == b
    decreases |a|
  {
    if |a| > 0 {
      LexLeAntisymmetric(a[1..], b[1..]);
      assert a == [a[0]] + a[1..] && b == [b[0]] + b[1..];
    }
  }

  lemma {:induction false} LexLeTransitive(a: string, b: string, c: string)
    requires LexLe(a, b) && LexLe(b, c)
    ensures LexLe(a, c)
    decreases |a|
  {
    if |a| > 0 && a[0] == b[0] && b[0] == c[0] {
      LexLeTransitive(a[1..], b[1..], c[1..]);
    }
  }

  predicate Sorted(s: seq<string>)
  {
    forall i, j :: 0 <= i < j < |s| ==> LexLe(s[i], s[j])
  }

  /** Inserts a name before the first element it does not follow. */
  function Insert(x: string, s: seq<string>): seq<string>
  {
    if s == [] then [x]
    else if LexLe(x, s[0]) then [x] + s
    else [s[0]] + Insert(x, s[1..])
  }

  lemma {:induction false} InsertCounts(x: string, s: seq<string>)
    ensures multiset(Insert(x, s)) == multiset(s) + multiset{x}
  {
    if s != [] && !LexLe(x, s[0]) {
      assert s == [s[0]] + s[1..];
      InsertCounts(x, s[1..]);
    }
  }

  lemma {:induction false} InsertKeepsSorted(x: string, s: seq<string>)
    requires Sorted(s)
    ensures Sorted(Insert(x, s))
  {
    if s == [] {
    } else if LexLe(x, s[0]) {
      forall j | 0 <= j < |s|
        ensures LexLe(x, s[j])
      {
        if j > 0 {
          LexLeTransitive(x, s[0], s[j]);
        }
      }
    } else {
      LexLeTotal(x, s[0]);
      var t := Insert(x, s[1..]);
      InsertKeepsSorted(x, s[1..]);
      InsertCounts(x, s[1..]);
      forall j | 0 <= j < |t|
        ensures LexLe(s[0], t[j])
      {
        assert t[j] in multiset(t);
        if t[j] != x {
          assert t[j] in multiset(s[1..]);
        }
      }
    }
  }

  /** Sorts a list of names (insertion sort; see SortIsUnique for why the algorithm
      does not matter). */
  function Sort(s: seq<string>): seq<string>
  {
    if s == [] then [] else Insert(s[0], Sort(s[1..]))
  }

  /** Sort returns its argument's names in order. */
  lemma {:induction false} SortSortsAndPermutes(s: seq<string>)
    ensures Sorted(Sort(s))
    ensures multiset(Sort(s)) == multiset(s)
  {
    if s != [] {
      assert s == [s[0]] + s[1..];
      SortSortsAndPermutes(s[1..]);
      InsertKeepsSorted(s[0], Sort(s[1..]));
      InsertCounts(s[0], Sort(s[1..]));
    }
  }

  /** The head of a sorted list comes first among all its elements. */
  lemma SortedHeadIsLeast(a: seq<string>, x: string)
    requires Sorted(a) && x in a
    ensures LexLe(a[0], x)
  {
    var k :| 0 <= k < |a| && a[k] == x;
    if k == 0 {
      LexLeTotal(x, x);
    }
  }

  /** Dropping the head of a list removes one copy of it from the list's multiset. */
  lemma TailCounts(a: seq<string>)
    requires |a| > 0
    ensures multiset(a[1..]) == multiset(a) - multiset{a[0]}
  {
    assert a == [a[0]] + a[1..];
  }

  /** The tail of a sorted list is sorted. */
  lemma SortedTail(a: seq<string>)
    requires Sorted(a) && |a| > 0
    ensures Sorted(a[1..])
  {
  }

  /** Two non-empty sorted lists holding the same names have the same length and head. */
  lemma SortedSameHead(a: seq<string>, b: seq<string>)
    requires Sorted(a) && Sorted(b) && multiset(a) == multiset(b) && |a| > 0
    ensures |b| == |a| && b[0] == a[0]
  {
    assert |a| == |multiset(a)| == |multiset(b)| == |b|;
    assert a[0] in multiset(b) && b[0] in multiset(a);
    SortedHeadIsLeast(a, b[0]);
    SortedHeadIsLeast(b, a[0]);
    LexLeAntisymmetric(a[0], b[0]);
  }

  /** Two sorted lists holding the same names are the same list: every correct sort,
      whatever its algorithm, produces Sort's result. */
  lemma {:induction false} SortIsUnique(a: seq<string>, b: seq<string>)
    requires Sorted(a) && Sorted(b) && multiset(a) == multiset(b)
    ensures a == b
    decreases |a|
  {
    if a == [] {
      assert |b| == |multiset(b)| == 0;
    } else {
      SortedSameHead(a, b);
      TailCounts(a);
      TailCounts(b);
      SortedTail(a);
      SortedTail(b);
      SortIsUnique(a[1..], b[1..]);
      assert a == [a[0]] + a[1..] && b == [b[0]] + b[1..];
    }
  }

  // ---------------------------------------------------------------------------
  // Listing a folder
  // ---------------------------------------------------------------------------

  /** The image names of a folder, sorted. `None` stands for a path that is not a
      directory, which lists as empty. */
  function ListImages(listing: Option<seq<string>>): (r: seq<string>)
    ensures listing.None? ==> r == []
  {
    match listing
    case None => []
    case Some(names) => Sort(FilterImages(names))
  }

  /** The listing is sorted and holds exactly the image names of the folder, each as
      often as the directory lists it. */
  lemma ListImagesContents(listing: Option<seq<string>>)
    ensures Sorted(ListImages(listing))
    ensures forall x :: x in ListImages(listing) <==> listing.Some? && x in listing.value && IsImageName(x)
    ensures forall x :: multiset(ListImages(listing))[x] ==
                       if listing.Some? && IsImageName(x) then multiset(listing.value)[x] else 0
  {
    if listing.Some? {
      var r := ListImages(listing);
      SortSortsAndPermutes(FilterImages(listing.value));
      FilterImagesCounts(listing.value);
      forall x
        ensures x in r <==> x in listing.value && IsImageName(x)
      {
        assert x in r <==> x in multiset(r);
      }
    }
  }

  /** The slice `images[:limit]` taken when the limit is positive; otherwise every name. */
  function Truncate(images: seq<string>, limit: int): (r: seq<string>)
    ensures |r| <= |images| && r == images[..|r|]
    ensures limit > 0 ==> |r| == if limit < |images| then limit else |images|
    ensures limit <= 0 ==> r == images
  {
    if limit > 0 && limit < |images| then images[..limit] else images
  }

  // ---------------------------------------------------------------------------
  // Embedding the listed images
  // ---------------------------------------------------------------------------

  /** The path of a file in a folder (`os.path.join` for a plain file name). */
  function Join(folder: string, name: string): string
  {
    folder + "/" + name
  }

  function Found(e: Option<Embedding>): seq<Embedding>
  {
    match e
    case None => []
    case Some(v) => [v]
  }

  /** The embeddings of the named images of a folder that the embedder succeeds on,
      in the names' order. */
  function Embedded(folder: string, names: seq<string>, embed: string -> Option<Embedding>): (r: seq<Embedding>)
    ensures |r| <= |names|
  {
    if names == [] then []
    else Embedded(folder, names[..|names| - 1], embed) + Found(embed(Join(folder, names[|names| - 1])))
  }

  /** Some embedding comes back exactly when the embedder succeeds on at least one of
      the named images. */
  lemma {:induction false} EmbeddedNonEmpty(folder: string, names: seq<string>, embed: string -> Option<Embedding>)
    ensures Embedded(folder, names, embed) != [] <==> exists i :: 0 <= i < |names| && embed(Join(folder, names[i])).Some?
  {
    if names != [] {
      var init := names[..|names| - 1];
      var last := names[|names| - 1];
      EmbeddedNonEmpty(folder, init, embed);
      if Embedded(folder, names, embed) != [] {
        if embed(Join(folder, last)).None? {
          var i :| 0 <= i < |init| && embed(Join(folder, init[i])).Some?;
          assert names[i] == init[i];
        }
      } else {
        forall i | 0 <= i < |names|
          ensures embed(Join(folder, names[i])).None?
        {
          if i < |init| {
            assert names[i] == init[i];
          }
        }
      }
    }
  }

  /** Embedding two lists one after the other gives the two results one after the
      other: the embeddings keep the listing order. */
  lemma {:induction false} EmbeddedConcat(folder: string, xs: seq<string>, ys: seq<string>, embed: string -> Option<Embedding>)
    ensures Embedded(folder, xs + ys, embed) == Embedded(folder, xs, embed) + Embedded(folder, ys, embed)
    decreases |ys|
  {
    if ys != [] {
      var zs := ys[..|ys| - 1];
      assert (xs + ys)[..|xs + ys| - 1] == xs + zs;
      assert (xs + ys)[|xs + ys| - 1] == ys[|ys| - 1];
      EmbeddedConcat(folder, xs, zs, embed);
    } else {
      assert xs + ys == xs;
    }
  }

  /** When the embedder succeeds on every image, there is one embedding per name, in order. */
  lemma {:induction false} EmbeddedAllFound(folder: string, names: seq<string>, embed: string -> Option<Embedding>)
    requires forall i :: 0 <= i < |names| ==> embed(Join(folder, names[i])).Some?
    ensures |Embedded(folder, names, embed)| == |names|
    ensures forall i :: 0 <= i < |names| ==> Embedded(folder, names, embed)[i] == embed(Join(folder, names[i])).value
  {
    if names != [] {
      EmbeddedAllFound(folder, names[..|names| - 1], embed);
    }
  }

  /** The result depends only on what the embedder returns for the images named. */
  lemma {:induction false} EmbeddedReadsOnlyNames(folder: string, names: seq<string>,
                                                  e1: string -> Option<Embedding>, e2: string -> Option<Embedding>)
    requires forall i :: 0 <= i < |names| ==> e1(Join(folder, names[i])) == e2(Join(folder, names[i]))
    ensures Embedded(folder, names, e1) == Embedded(folder, names, e2)
  {
    if names != [] {
      EmbeddedReadsOnlyNames(folder, names[..|names| - 1], e1, e2);
    }
  }

  /** With a positive limit, loading a group embeds only the first `limit` sorted image
      names: embedders that agree on those images give the same embeddings. */
  lemma LoadLooksOnlyAtFirstNames(listdir: string -> Option<seq<string>>, folder: string, limit: int,
                                  e1: string -> Option<Embedding>, e2: string -> Option<Embedding>)
    requires limit > 0
    requires forall i :: 0 <= i < limit && i < |ListImages(listdir(folder))| ==>
               e1(Join(folder, ListImages(listdir(folder))[i])) == e2(Join(folder, ListImages(listdir(folder))[i]))
    ensures Embedded(folder, Truncate(ListImages(listdir(folder)), limit), e1)
         == Embedded(folder, Truncate(ListImages(listdir(folder)), limit), e2)
  {
    EmbeddedReadsOnlyNames(folder, Truncate(ListImages(listdir(folder)), limit), e1, e2);
  }

  /** Lists a group folder, keeps the first `limit` image names when `limit` is positive,
      and collects the embeddings the embedder produces for them, skipping failures.
      `listdir` gives a path's directory listing (`None` when it is not a directory) and
      `embed` the embedding of the image at a path, if one can be computed. */
  method LoadGroupEmbeddings(listdir: string -> Option<seq<string>>, folder: string, limit: int,
                             embed: string -> Option<Embedding>)
    returns (embeddings: seq<Embedding>)
    ensures embeddings == Embedded(folder, Truncate(ListImages(listdir(folder)), limit), embed)
    ensures limit > 0 ==> |embeddings| <= limit
  {
    var images := ListImages(listdir(folder));
    if limit > 0 {
      images := images[..if limit < |images| then limit else |images|];
    }
    assert images == Truncate(ListImages(listdir(folder)), limit);
    embeddings := [];
    for i := 0 to |images|
      invariant embeddings == Embedded(folder, images[..i], embed)
    {
      assert images[..i + 1][..i] == images[..i];
      var imgPath := Join(folder, images[i]);
      var embedding := embed(imgPath);
      if embedding.Some? {
        embeddings := embeddings + [embedding.value];
      }
    }
    assert images[..|images|] == images;
  }
}
