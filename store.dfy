/** The document store seen through the queries the core issues: the
    collection of Batch documents is a sequence in insertion order, a `find`
    with a filter is `Where`, `findOne(...).sort({endTime: -1})` is `Latest`,
    and `.sort({startTime: ±1})` is `SortByStart`. */
module Store {
  import opened Wrappers
  import opened Model

  /** The batches that satisfy a filter, in store order. */
  function Where(bs: seq<Batch>, keep: Batch -> bool): seq<Batch> {
    if bs == [] then []
    else (if keep(bs[0]) then [bs[0]] else []) + Where(bs[1..], keep)
  }

  /** A `find` returns exactly the stored batches that pass the filter, each as
      often as it is stored. */
  lemma {:induction false} WhereSpec(bs: seq<Batch>, keep: Batch -> bool)
    ensures forall i :: 0 <= i < |Where(bs, keep)| ==> keep(Where(bs, keep)[i])
    ensures forall b :: b in Where(bs, keep) <==> b in bs && keep(b)
    ensures forall x :: multiset(Where(bs, keep))[x] == if keep(x) then multiset(bs)[x] else 0
  {
    if bs != [] {
      WhereSpec(bs[1..], keep);
      assert bs == [bs[0]] + bs[1..];
    }
  }

  lemma {:induction false} WhereNone(bs: seq<Batch>, keep: Batch -> bool)
    requires forall i :: 0 <= i < |bs| ==> !keep(bs[i])
    ensures Where(bs, keep) == []
  {
    if bs != [] {
      WhereNone(bs[1..], keep);
    }
  }

  lemma {:induction false} WhereAppend(a: seq<Batch>, b: seq<Batch>, keep: Batch -> bool)
    ensures Where(a + b, keep) == Where(a, keep) + Where(b, keep)
  {
    if a == [] {
      assert a + b == b;
    } else {
      var ab := a + b;
      assert ab[0] == a[0];
      assert ab[1..] == a[1..] + b;
      WhereAppend(a[1..], b, keep);
      var head := if keep(a[0]) then [a[0]] else [];
      assert Where(ab, keep) == head + Where(a[1..] + b, keep);
      assert Where(a, keep) == head + Where(a[1..], keep);
    }
  }

  /** Filtering around one position: the batches before it, the one at it,
      and those after it. */
  lemma WhereSplit(bs: seq<Batch>, i: nat, keep: Batch -> bool)
    requires i < |bs|
    ensures Where(bs, keep) == Where(bs[..i], keep) + (if keep(bs[i]) then [bs[i]] else []) + Where(bs[i + 1..], keep)
  {
    var rest := bs[i..];
    assert bs == bs[..i] + rest;
    WhereAppend(bs[..i], rest, keep);
    assert rest[0] == bs[i] && rest[1..] == bs[i + 1..];
  }

  /** The batches of one conversation: `Batch.find({chatId})`. */
  function OfChat(bs: seq<Batch>, chatId: string): seq<Batch> {
    Where(bs, (b: Batch) => b.chatId == chatId)
  }

  /** Index of the batch `findOne({chatId}).sort({endTime: -1})` returns: one
      of the batches of `chatId` with the greatest end time (on a tie, the
      earliest stored one). */
  function Latest(bs: seq<Batch>, chatId: string): (r: Option<nat>)
    ensures r.Some? ==> r.value < |bs| && bs[r.value].chatId == chatId
    ensures r.Some? ==> forall j :: 0 <= j < |bs| && bs[j].chatId == chatId ==>
                          bs[j].endTime <= bs[r.value].endTime
    ensures r.None? <==> forall j :: 0 <= j < |bs| ==> bs[j].chatId != chatId
  {
    if bs == [] then None
    else
      var rest := Latest(bs[..|bs| - 1], chatId);
      var last := bs[|bs| - 1];
      if last.chatId != chatId then rest
      else if rest.Some? && last.endTime <= bs[rest.value].endTime then rest
      else Some(|bs| - 1)
  }

  /** `x` may come before `y` in a sort on start time, ascending or descending. */
  predicate Before(x: Batch, y: Batch, descending: bool) {
    if descending then x.startTime >= y.startTime else x.startTime <= y.startTime
  }

  predicate SortedByStart(s: seq<Batch>, descending: bool) {
    forall i, j :: 0 <= i < j < |s| ==> Before(s[i], s[j], descending)
  }

  function Insert(b: Batch, s: seq<Batch>, descending: bool): (r: seq<Batch>)
    ensures multiset(r) == multiset(s) + multiset{b}
  {
    if s == [] || Before(b, s[0], descending) then [b] + s
    else
      assert s == [s[0]] + s[1..];
      [s[0]] + Insert(b, s[1..], descending)
  }

  lemma ConsSorted(x: Batch, t: seq<Batch>, descending: bool)
    requires SortedByStart(t, descending)
    requires forall y :: y in t ==> Before(x, y, descending)
    ensures SortedByStart([x] + t, descending)
  {
    var r := [x] + t;
    forall i, j | 0 <= i < j < |r| ensures Before(r[i], r[j], descending) {
      if i == 0 {
        assert r[j] == t[j - 1];
      } else {
        assert r[i] == t[i - 1] && r[j] == t[j - 1];
      }
    }
  }

  lemma {:induction false} InsertSorted(b: Batch, s: seq<Batch>, descending: bool)
    requires SortedByStart(s, descending)
    ensures SortedByStart(Insert(b, s, descending), descending)
  {
    if s == [] || Before(b, s[0], descending) {
      assert forall y :: y in s ==> Before(s[0], y, descending) by {
        forall y | y in s ensures Before(s[0], y, descending) {
          var j :| 0 <= j < |s| && s[j] == y;
          assert j == 0 || Before(s[0], s[j], descending);
        }
      }
      ConsSorted(b, s, descending);
    } else {
      var t := Insert(b, s[1..], descending);
      InsertSorted(b, s[1..], descending);
      forall x | x in t ensures Before(s[0], x, descending) {
        assert x in multiset(t);
        if x != b {
          assert x in s[1..];
        }
      }
      ConsSorted(s[0], t, descending);
    }
  }

  /** The sort the store applies, as a stable insertion sort. The store does
      not specify the order of batches with equal start times; the contracts
      of `SortByStartSpec` hold for any such order. */
  function SortByStart(bs: seq<Batch>, descending: bool): seq<Batch> {
    if bs == [] then [] else Insert(bs[0], SortByStart(bs[1..], descending), descending)
  }

  /** The sorted batches are a permutation of the input, ordered by start time. */
  lemma {:induction false} SortByStartSpec(bs: seq<Batch>, descending: bool)
    ensures multiset(SortByStart(bs, descending)) == multiset(bs)
    ensures SortedByStart(SortByStart(bs, descending), descending)
  {
    if bs != [] {
      SortByStartSpec(bs[1..], descending);
      InsertSorted(bs[0], SortByStart(bs[1..], descending), descending);
      assert bs == [bs[0]] + bs[1..];
    }
  }

  /** `batches.flatMap(batch => batch.messages)`. */
  function Flatten(bs: seq<Batch>): seq<Message> {
    if bs == [] then [] else bs[0].messages + Flatten(bs[1..])
  }

  /** The number of messages held by a sequence of batches. */
  function Count(bs: seq<Batch>): nat {
    if bs == [] then 0 else |bs[0].messages| + Count(bs[1..])
  }

  lemma {:induction false} FlattenAppend(a: seq<Batch>, b: seq<Batch>)
    ensures Flatten(a + b) == Flatten(a) + Flatten(b)
    ensures Count(a + b) == Count(a) + Count(b)
  {
    if a == [] {
      assert a + b == b;
    } else {
      assert (a + b)[1..] == a[1..] + b;
      FlattenAppend(a[1..], b);
    }
  }

  lemma {:induction false} FlattenLength(bs: seq<Batch>)
    ensures |Flatten(bs)| == Count(bs)
  {
    if bs != [] {
      FlattenLength(bs[1..]);
    }
  }

  /** Flattening around one position. */
  lemma FlattenSplit(bs: seq<Batch>, i: nat)
    requires i < |bs|
    ensures Flatten(bs) == Flatten(bs[..i]) + bs[i].messages + Flatten(bs[i + 1..])
    ensures Count(bs) == Count(bs[..i]) + |bs[i].messages| + Count(bs[i + 1..])
  {
    assert bs == bs[..i] + ([bs[i]] + bs[i + 1..]);
    FlattenAppend(bs[..i], [bs[i]] + bs[i + 1..]);
    assert ([bs[i]] + bs[i + 1..])[1..] == bs[i + 1..];
  }

  /** Message `k` of batch `i` sits in the flattened sequence right after the
      messages of the batches before `i`. */
  lemma FlattenAt(bs: seq<Batch>, i: nat, k: nat)
    requires i < |bs| && k < |bs[i].messages|
    ensures Count(bs[..i]) + k < |Flatten(bs)|
    ensures Flatten(bs)[Count(bs[..i]) + k] == bs[i].messages[k]
  {
    FlattenSplit(bs, i);
    FlattenLength(bs[..i]);
  }

  lemma {:induction false} FlattenInsert(b: Batch, s: seq<Batch>, descending: bool)
    ensures multiset(Flatten(Insert(b, s, descending))) == multiset(b.messages) + multiset(Flatten(s))
  {
    if s == [] || Before(b, s[0], descending) {
    } else {
      FlattenInsert(b, s[1..], descending);
    }
  }

  /** Sorting the batches reorders whole batches only: the flattened messages
      are the same, counted with multiplicity. */
  lemma {:induction false} FlattenSort(bs: seq<Batch>, descending: bool)
    ensures multiset(Flatten(SortByStart(bs, descending))) == multiset(Flatten(bs))
  {
    if bs != [] {
      FlattenSort(bs[1..], descending);
      FlattenInsert(bs[0], SortByStart(bs[1..], descending), descending);
    }
  }
}
