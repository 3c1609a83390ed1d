/**
 * Merging the parsed result files into one feature list: each file that
 * parses to an array contributes all its items, one that parses to any other
 * value contributes that value, and one that fails to parse contributes
 * nothing while the files after it are still processed.
 */
module Merge {
  import opened Wrappers

  /** A successfully parsed file: a JSON array, or a single non-array value. */
  datatype JsonDoc<T> = JsonArray(items: seq<T>) | JsonValue(item: T)

  /** What `JSON.parse` yields for one file: the document, or the error message. */
  type ParseOutcome<T> = Result<JsonDoc<T>, string>

  /** One iteration of the per-file loop, applied to the features gathered so far. */
  function MergeStep<T>(acc: seq<T>, o: ParseOutcome<T>): seq<T> {
    match o
    case Ok(JsonArray(items)) => acc + items
    case Ok(JsonValue(item)) => acc + [item]
    case Err(_) => acc
  }

  /** The per-file loop, left to right, from the accumulator `acc`. */
  function MergeFrom<T>(acc: seq<T>, os: seq<ParseOutcome<T>>): seq<T>
    decreases |os|
  {
    if |os| == 0 then acc else MergeFrom(MergeStep(acc, os[0]), os[1..])
  }

  /** All features of all files, starting from the empty list. */
  function MergeAll<T>(os: seq<ParseOutcome<T>>): seq<T> {
    MergeFrom([], os)
  }

  /** Reference: what one file contributes on its own. */
  function Contribution<T>(o: ParseOutcome<T>): seq<T> {
    match o
    case Ok(JsonArray(items)) => items
    case Ok(JsonValue(item)) => [item]
    case Err(_) => []
  }

  /** Reference: the contributions of all files, concatenated in file order. */
  function Contributions<T>(os: seq<ParseOutcome<T>>): seq<T> {
    if |os| == 0 then [] else Contribution(os[0]) + Contributions(os[1..])
  }

  /** How many items one file contributes, counted without building them. */
  function ContributionSize<T>(o: ParseOutcome<T>): nat {
    match o
    case Ok(JsonArray(items)) => |items|
    case Ok(JsonValue(_)) => 1
    case Err(_) => 0
  }

  function TotalContributionSize<T>(os: seq<ParseOutcome<T>>): nat {
    if |os| == 0 then 0 else ContributionSize(os[0]) + TotalContributionSize(os[1..])
  }

  lemma {:induction false} MergeFromIsAppend<T>(acc: seq<T>, os: seq<ParseOutcome<T>>)
    ensures MergeFrom(acc, os) == acc + Contributions(os)
    decreases |os|
  {
    if |os| > 0 {
      MergeFromIsAppend(MergeStep(acc, os[0]), os[1..]);
      assert MergeStep(acc, os[0]) == acc + Contribution(os[0]);
    } else {
      assert acc + [] == acc;
    }
  }

  /** The loop yields exactly the file contributions concatenated in file order. */
  lemma MergeAllIsContributions<T>(os: seq<ParseOutcome<T>>)
    ensures MergeAll(os) == Contributions(os)
  {
    MergeFromIsAppend([], os);
    assert [] + Contributions(os) == Contributions(os);
  }

  lemma {:induction false} ContributionsAppend<T>(a: seq<ParseOutcome<T>>, b: seq<ParseOutcome<T>>)
    ensures Contributions(a + b) == Contributions(a) + Contributions(b)
  {
    if |a| == 0 {
      assert a + b == b;
    } else {
      assert (a + b)[1..] == a[1..] + b;
      ContributionsAppend(a[1..], b);
    }
  }

  /** Merging two runs of files in sequence merges each and keeps their order. */
  lemma MergeAllAppend<T>(a: seq<ParseOutcome<T>>, b: seq<ParseOutcome<T>>)
    ensures MergeAll(a + b) == MergeAll(a) + MergeAll(b)
  {
    MergeAllIsContributions(a + b);
    MergeAllIsContributions(a);
    MergeAllIsContributions(b);
    ContributionsAppend(a, b);
  }

  /** The file after the first `|os|`: an array adds all its items in order at the
      end, a single value adds exactly itself, a parse error adds nothing. */
  lemma MergeOneMore<T>(os: seq<ParseOutcome<T>>, o: ParseOutcome<T>)
    ensures o.Ok? && o.value.JsonArray? ==> MergeAll(os + [o]) == MergeAll(os) + o.value.items
    ensures o.Ok? && o.value.JsonValue? ==> MergeAll(os + [o]) == MergeAll(os) + [o.value.item]
    ensures o.Err? ==> MergeAll(os + [o]) == MergeAll(os)
  {
    MergeAllAppend(os, [o]);
    MergeAllIsContributions([o]);
    assert Contributions([o]) == Contribution(o) + Contributions([o][1..]);
    assert Contributions([o][1..]) == [];
  }

  /** A file that fails to parse is skipped and the files after it still count. */
  lemma ParseErrorSkipped<T>(os: seq<ParseOutcome<T>>, i: nat)
    requires i < |os| && os[i].Err?
    ensures MergeAll(os) == MergeAll(os[..i] + os[i + 1..])
    ensures MergeAll(os) == MergeAll(os[..i]) + MergeAll(os[i + 1..])
  {
    assert os == os[..i] + [os[i]] + os[i + 1..];
    MergeAllAppend(os[..i] + [os[i]], os[i + 1..]);
    MergeOneMore(os[..i], os[i]);
    MergeAllAppend(os[..i], os[i + 1..]);
  }

  lemma {:induction false} ContributionsLength<T>(os: seq<ParseOutcome<T>>)
    ensures |Contributions(os)| == TotalContributionSize(os)
  {
    if |os| > 0 {
      ContributionsLength(os[1..]);
    }
  }

  /** The merged length is the sum of the per-file contributions. */
  lemma MergeAllLength<T>(os: seq<ParseOutcome<T>>)
    ensures |MergeAll(os)| == TotalContributionSize(os)
  {
    MergeAllIsContributions(os);
    ContributionsLength(os);
  }
}
