/** Choosing which files of the results directory are read. */
module Discover {

  /** `s.endsWith(suffix)`. */
  predicate EndsWith(s: string, suffix: string) {
    |suffix| <= |s| && s[|s| - |suffix|..] == suffix
  }

  const CUCUMBER_JSON_SUFFIX: string := ".cucumber.json"
  const JSON_SUFFIX: string := ".json"

  /** The file-name filter: either of the two accepted suffixes. */
  predicate IsResultFile(name: string) {
    EndsWith(name, CUCUMBER_JSON_SUFFIX) || EndsWith(name, JSON_SUFFIX)
  }

  /** The ".cucumber.json" test adds nothing: the filter is exactly "ends in .json". */
  lemma IsResultFileIff(name: string)
    ensures IsResultFile(name) <==> EndsWith(name, JSON_SUFFIX)
  {
  }

  /** One directory entry together with whatever reading it would yield. */
  datatype DirEntry<T> = DirEntry(name: string, content: T)

  /** The entries kept by the filter, in directory-listing order. */
  function Discovered<T>(entries: seq<DirEntry<T>>): (r: seq<DirEntry<T>>)
    ensures |r| <= |entries|
    ensures forall i :: 0 <= i < |r| ==> r[i] in entries && IsResultFile(r[i].name)
    ensures forall i :: 0 <= i < |entries| && IsResultFile(entries[i].name) ==> entries[i] in r
  {
    if |entries| == 0 then []
    else if IsResultFile(entries[0].name) then [entries[0]] + Discovered(entries[1..])
    else Discovered(entries[1..])
  }

  /** A listing without any ".json" name yields no result file. */
  lemma {:induction false} NothingDiscovered<T>(entries: seq<DirEntry<T>>)
    requires forall i :: 0 <= i < |entries| ==> !EndsWith(entries[i].name, JSON_SUFFIX)
    ensures Discovered(entries) == []
  {
    if |entries| > 0 {
      IsResultFileIff(entries[0].name);
      assert forall i :: 0 <= i < |entries[1..]| ==> entries[1..][i] == entries[i + 1];
      NothingDiscovered(entries[1..]);
    }
  }

  /** Filtering a listing split in two filters each half and keeps their order. */
  lemma {:induction false} DiscoveredAppend<T>(a: seq<DirEntry<T>>, b: seq<DirEntry<T>>)
    ensures Discovered(a + b) == Discovered(a) + Discovered(b)
  {
    if |a| == 0 {
      assert a + b == b;
    } else {
      assert (a + b)[1..] == a[1..] + b;
      DiscoveredAppend(a[1..], b);
    }
  }

  /** Filtering twice is filtering once. */
  lemma {:induction false} DiscoveredIdempotent<T>(entries: seq<DirEntry<T>>)
    ensures Discovered(Discovered(entries)) == Discovered(entries)
  {
    if |entries| > 0 {
      DiscoveredIdempotent(entries[1..]);
      if IsResultFile(entries[0].name) {
        assert ([entries[0]] + Discovered(entries[1..]))[1..] == Discovered(entries[1..]);
      }
    }
  }
}
