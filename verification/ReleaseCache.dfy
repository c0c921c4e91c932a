/** The release cache of mother/release/index.go on the heap: who can reach whose builds. */
module ReleaseCache {
  import opened Wrappers
  import NaturalOrder

  /** A Go Build: a string and a slice header. */
  datatype Entry = Entry(version: string, platforms: array<string>)

  datatype Lists = Lists(builds: array<Entry>, mother: array<Entry>)

  /** What Fetch returns. */
  datatype Fetched = Failed | NotModified | New(lists: Lists)

  /** The list in memory says s. */
  ghost predicate Says(a: array<Entry>, s: seq<NaturalOrder.Build>)
    reads a, PlatformsOf(a)
  {
    && |s| == a.Length
    && forall i :: 0 <= i < |s| ==> a[i].version == s[i].version && a[i].platforms[..] == s[i].platforms
  }

  /** A deep copy: it says the same, and has no memory in common with anything there was. */
  method CloneBuilds(src: array<Entry>, ghost said: seq<NaturalOrder.Build>) returns (out: array<Entry>)
    requires Says(src, said)
    ensures fresh(out) && forall i :: 0 <= i < out.Length ==> fresh(out[i].platforms)
    ensures Says(out, said)
  {
    var none := new string[0];
    out := new Entry[src.Length](_ => Entry("", none));
    for i := 0 to src.Length
      invariant fresh(out) && out.Length == src.Length && fresh(none)
      invariant forall k :: 0 <= k < src.Length ==> fresh(out[k].platforms)
      invariant forall k :: 0 <= k < i ==> out[k].version == said[k].version && out[k].platforms[..] == said[k].platforms
    {
      var from := src[i].platforms;
      var platforms := new string[from.Length](k requires 0 <= k < from.Length reads from => from[k]);
      assert platforms[..] == from[..];
      out[i] := Entry(src[i].version, platforms);
    }
  }

  class Cache {
    var snap: Lists
    var checkedAt: Option<int>
    var stale: bool
    /** What the snapshot says. */
    ghost var builds: seq<NaturalOrder.Build>
    ghost var mother: seq<NaturalOrder.Build>

    ghost predicate Valid()
      reads this, snap.builds, snap.mother
      reads PlatformsOf(snap.builds), PlatformsOf(snap.mother)
    {
      Says(snap.builds, builds) && Says(snap.mother, mother)
    }

    constructor ()
      ensures Valid() && builds == [] && mother == [] && checkedAt == None && stale
    {
      var none, other := new Entry[0], new Entry[0];
      snap, checkedAt, stale := Lists(none, other), None, true;
      builds, mother := [], [];
    }

    /**
     Replaces the snapshot and writes into none: what readers hold stays as it was. A failure keeps the last
     good lists and says so; a success keeps no memory of the source's.
     */
    method Refresh(fetched: Fetched, now: int, ghost agents: seq<NaturalOrder.Build>, ghost mothers: seq<NaturalOrder.Build>)
      returns (ok: bool)
      requires Valid()
      requires fetched.New? ==> Says(fetched.lists.builds, agents) && Says(fetched.lists.mother, mothers)
      modifies this
      ensures Valid() && ok == !fetched.Failed? && stale == !ok
      ensures checkedAt == if ok then Some(now) else old(checkedAt)
      ensures builds == if fetched.New? then agents else old(builds)
      ensures mother == if fetched.New? then mothers else old(mother)
      ensures fetched.New? ==> fresh(snap.builds) && forall i :: 0 <= i < snap.builds.Length ==> fresh(snap.builds[i].platforms)
      ensures fetched.New? ==> fresh(snap.mother) && forall i :: 0 <= i < snap.mother.Length ==> fresh(snap.mother[i].platforms)
    {
      match fetched
      case Failed =>
        stale := true;
        return false;
      case NotModified =>
        checkedAt, stale := Some(now), false;
        return true;
      case New(lists) =>
        var newBuilds := CloneBuilds(lists.builds, agents);
        var newMother := CloneBuilds(lists.mother, mothers);
        snap, checkedAt, stale := Lists(newBuilds, newMother), Some(now), false;
        builds, mother := agents, mothers;
        return true;
    }

    method Snapshot() returns (copy: Lists)
      requires Valid()
      ensures Valid() && Says(copy.builds, builds) && Says(copy.mother, mother)
      ensures fresh(copy.builds) && forall i :: 0 <= i < copy.builds.Length ==> fresh(copy.builds[i].platforms)
      ensures fresh(copy.mother) && forall i :: 0 <= i < copy.mother.Length ==> fresh(copy.mother[i].platforms)
    {
      var b := CloneBuilds(snap.builds, builds);
      var m := CloneBuilds(snap.mother, mother);
      copy := Lists(b, m);
    }

    /** A handler that scribbles over everything its snapshot reaches changes nothing the cache says. */
    method ScribbleOver(junk: Entry, word: string)
      requires Valid()
      ensures Valid()
    {
      var copy := Snapshot();
      Scribble(copy, word, junk);
    }
  }

  /** Overwrites every platform a copy of the lists reaches, then every entry. */
  method Scribble(copy: Lists, word: string, junk: Entry)
    modifies copy.builds, copy.mother, PlatformsOf(copy.builds), PlatformsOf(copy.mother)
  {
    ScribblePlatforms(copy.builds, word);
    ScribblePlatforms(copy.mother, word);
    ScribbleEntries(copy.builds, junk);
    ScribbleEntries(copy.mother, junk);
  }

  ghost function PlatformsOf(list: array<Entry>): set<array<string>>
    reads list
  {
    set i | 0 <= i < list.Length :: list[i].platforms
  }

  method ScribblePlatforms(list: array<Entry>, word: string)
    modifies PlatformsOf(list)
  {
    for i := 0 to list.Length {
      var platforms := list[i].platforms;
      for k := 0 to platforms.Length {
        platforms[k] := word;
      }
    }
  }

  method ScribbleEntries(list: array<Entry>, junk: Entry)
    modifies list
  {
    for i := 0 to list.Length {
      list[i] := junk;
    }
  }
}
