/** The per-group loop shared by the audit and the demographic prediction: visit the
    configured groups in order, skip a group whose folder is missing or whose images
    yield no embedding, and record one distance entry for every other group. */
module Distances {
  import opened Wrappers
  import opened Thresholds
  import opened Images

  /** The reference dataset as the endpoints see it: where it lives, what each path lists
      (`None` when it is not a directory) and the embedding the face model gives the image
      at a path, if any. */
  datatype Store = Store(datasetPath: string,
                         listdir: string -> Option<seq<string>>,
                         embed: string -> Option<Embedding>)

  /** One row of `distances`: a group, the distance measured for it, how many
      embeddings it rests on and whether the distance reaches the standard threshold. */
  datatype GroupDistance = GroupDistance(group: string, averageDistance: real, sampleCount: int, isAboveThreshold: bool)

  function GroupFolder(store: Store, group: string): string
  {
    Join(store.datasetPath, group)
  }

  /** The embeddings loaded for a group's folder with a given limit. */
  function GroupEmbeddings(store: Store, group: string, limit: int): seq<Embedding>
  {
    var folder := GroupFolder(store, group);
    Embedded(folder, Truncate(ListImages(store.listdir(folder)), limit), store.embed)
  }

  /** The entry a group contributes, if any; `measure` turns the group's embeddings into
      its distance. */
  function EntryFor(store: Store, group: string, limit: int, measure: seq<Embedding> -> real): Option<GroupDistance>
  {
    if store.listdir(GroupFolder(store, group)).None? then None
    else
      var embeddings := GroupEmbeddings(store, group, limit);
      if embeddings == [] then None
      else
        var d := measure(embeddings);
        Some(GroupDistance(group, d, |embeddings|, d >= STANDARD_THRESHOLD))
  }

  function OptionToSeq(e: Option<GroupDistance>): seq<GroupDistance>
  {
    match e
    case None => []
    case Some(v) => [v]
  }

  /** The entries of a list of groups, in the groups' order. */
  function Entries(store: Store, groups: seq<string>, limit: int, measure: seq<Embedding> -> real): seq<GroupDistance>
  {
    if groups == [] then []
    else Entries(store, groups[..|groups| - 1], limit, measure) + OptionToSeq(EntryFor(store, groups[|groups| - 1], limit, measure))
  }

  /** Every entry is the entry of one of the groups: it names that group, its flag says
      whether its distance reaches 0.68, and its sample count is positive and, with a
      positive limit, at most the limit. There are at most as many entries as groups. */
  lemma {:induction false} EntriesWellFormed(store: Store, groups: seq<string>, limit: int, measure: seq<Embedding> -> real)
    ensures |Entries(store, groups, limit, measure)| <= |groups|
    ensures forall e :: e in Entries(store, groups, limit, measure) ==>
              && e.group in groups
              && EntryFor(store, e.group, limit, measure) == Some(e)
              && (e.isAboveThreshold <==> e.averageDistance >= STANDARD_THRESHOLD)
              && 0 < e.sampleCount
              && (limit > 0 ==> e.sampleCount <= limit)
  {
    if groups != [] {
      var init := groups[..|groups| - 1];
      EntriesWellFormed(store, init, limit, measure);
      var g := groups[|groups| - 1];
      if EntryFor(store, g, limit, measure).Some? {
        var folder := GroupFolder(store, g);
        assert |Truncate(ListImages(store.listdir(folder)), limit)| <= limit || limit <= 0;
      }
    }
  }

  /** Distinct groups give entries for distinct groups: no group is reported twice. */
  lemma {:induction false} EntriesDistinctGroups(store: Store, groups: seq<string>, limit: int, measure: seq<Embedding> -> real)
    requires forall i, j :: 0 <= i < j < |groups| ==> groups[i] != groups[j]
    ensures var es := Entries(store, groups, limit, measure);
            forall i, j :: 0 <= i < j < |es| ==> es[i].group != es[j].group
  {
    if groups != [] {
      var init := groups[..|groups| - 1];
      var last := groups[|groups| - 1];
      EntriesDistinctGroups(store, init, limit, measure);
      EntriesWellFormed(store, init, limit, measure);
      assert last !in init;
      var prev := Entries(store, init, limit, measure);
      var tail := OptionToSeq(EntryFor(store, last, limit, measure));
      assert Entries(store, groups, limit, measure) == prev + tail;
      assert forall e :: e in tail ==> e.group == last;
      forall i | 0 <= i < |prev|
        ensures prev[i].group != last
      {
        assert prev[i] in prev;
      }
    }
  }

  /** The four configured groups are distinct, so the endpoints report each at most once. */
  lemma ConfiguredGroupsReportedOnce(store: Store, limit: int, measure: seq<Embedding> -> real)
    ensures var es := Entries(store, GROUPS, limit, measure);
            forall i, j :: 0 <= i < j < |es| ==> es[i].group != es[j].group
  {
    assert forall i, j :: 0 <= i < j < |GROUPS| ==> GROUPS[i] != GROUPS[j];
    EntriesDistinctGroups(store, GROUPS, limit, measure);
  }

  /** A group yields an entry exactly when its folder exists and the embedder succeeds
      on at least one of the first `limit` sorted images in it. */
  lemma EntryForPresent(store: Store, g: string, limit: int, measure: seq<Embedding> -> real)
    ensures var folder := GroupFolder(store, g);
            var names := Truncate(ListImages(store.listdir(folder)), limit);
            (EntryFor(store, g, limit, measure).Some?
             <==> store.listdir(folder).Some? && exists i :: 0 <= i < |names| && store.embed(Join(folder, names[i])).Some?)
  {
    var folder := GroupFolder(store, g);
    EmbeddedNonEmpty(folder, Truncate(ListImages(store.listdir(folder)), limit), store.embed);
  }

  /** A visited group has an entry exactly when it yields one on its own. */
  lemma {:induction false} EntriesHaveGroupEntry(store: Store, groups: seq<string>, limit: int, measure: seq<Embedding> -> real, g: string)
    requires g in groups
    ensures (exists e :: e in Entries(store, groups, limit, measure) && e.group == g)
        <==> EntryFor(store, g, limit, measure).Some?
  {
    var init := groups[..|groups| - 1];
    var last := groups[|groups| - 1];
    var prev := Entries(store, init, limit, measure);
    var tail := OptionToSeq(EntryFor(store, last, limit, measure));
    assert Entries(store, groups, limit, measure) == prev + tail;
    assert forall e :: e in tail ==> e.group == last && EntryFor(store, last, limit, measure) == Some(e);
    EntriesWellFormed(store, init, limit, measure);
    if g == last {
      if EntryFor(store, g, limit, measure).Some? {
        assert EntryFor(store, g, limit, measure).value in tail;
      }
    } else {
      assert g in init;
      EntriesHaveGroupEntry(store, init, limit, measure, g);
    }
  }

  /** A visited group has an entry exactly when its folder exists and the embedder
      succeeds on at least one of the first `limit` sorted images in it. */
  lemma EntriesPresence(store: Store, groups: seq<string>, limit: int, measure: seq<Embedding> -> real, g: string)
    requires g in groups
    ensures var folder := GroupFolder(store, g);
            var names := Truncate(ListImages(store.listdir(folder)), limit);
            ((exists e :: e in Entries(store, groups, limit, measure) && e.group == g)
             <==> store.listdir(folder).Some? && exists i :: 0 <= i < |names| && store.embed(Join(folder, names[i])).Some?)
  {
    EntriesHaveGroupEntry(store, groups, limit, measure, g);
    EntryForPresent(store, g, limit, measure);
  }

  /** Visiting two lists of groups in turn gives their entries in turn. */
  lemma {:induction false} EntriesConcat(store: Store, xs: seq<string>, ys: seq<string>, limit: int, measure: seq<Embedding> -> real)
    ensures Entries(store, xs + ys, limit, measure) == Entries(store, xs, limit, measure) + Entries(store, ys, limit, measure)
    decreases |ys|
  {
    if ys == [] {
      assert xs + ys == xs;
    } else {
      var zs := ys[..|ys| - 1];
      assert (xs + ys)[..|xs + ys| - 1] == xs + zs;
      assert (xs + ys)[|xs + ys| - 1] == ys[|ys| - 1];
      EntriesConcat(store, xs, zs, limit, measure);
    }
  }

  /** The entries of the first i + 1 groups extend those of the first i by the entry of
      group i, if any. */
  lemma EntriesStep(store: Store, gs: seq<string>, i: nat, limit: int, measure: seq<Embedding> -> real)
    requires i < |gs|
    ensures Entries(store, gs[..i + 1], limit, measure)
         == Entries(store, gs[..i], limit, measure) + OptionToSeq(EntryFor(store, gs[i], limit, measure))
  {
    assert gs[..i + 1][..i] == gs[..i];
  }

  /** The loop over GROUPS that builds `distances`. */
  method CollectDistances(store: Store, limit: int, measure: seq<Embedding> -> real)
    returns (distances: seq<GroupDistance>)
    ensures distances == Entries(store, GROUPS, limit, measure)
  {
    distances := [];
    for i := 0 to |GROUPS|
      invariant distances == Entries(store, GROUPS[..i], limit, measure)
    {
      EntriesStep(store, GROUPS, i, limit, measure);
      var group := GROUPS[i];
      var groupFolder := Join(store.datasetPath, group);
      assert groupFolder == GroupFolder(store, group);
      ghost var entry := EntryFor(store, group, limit, measure);
      if store.listdir(groupFolder).Some? {
        var embeddings := LoadGroupEmbeddings(store.listdir, groupFolder, limit, store.embed);
        assert embeddings == GroupEmbeddings(store, group, limit);
        if embeddings != [] {
          var distance := measure(embeddings);
          assert entry == Some(GroupDistance(group, distance, |embeddings|, distance >= STANDARD_THRESHOLD));
          distances := distances + [GroupDistance(group, distance, |embeddings|, distance >= STANDARD_THRESHOLD)];
        } else {
          assert entry == None;
        }
      } else {
        assert entry == None;
      }
    }
    assert GROUPS[..|GROUPS|] == GROUPS;
  }
}
