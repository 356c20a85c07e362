/**
 * `sorted(data.channels.items(), key=lambda k: int(k[0]))`: the channel
 * entries of a decoded FCS file, ordered by the integer value of their
 * index string.  Python's sort is stable, so entries whose indices parse to
 * the same integer ("1" and "01") keep their dictionary order.
 */
module ChannelOrder {
  import opened Outcomes
  import PythonInt

  /** One item of the decoder's channel dictionary: the index string and its keyword record. */
  datatype Channel = Channel(index: string, keywords: map<string, string>)

  predicate HasIntIndex(c: Channel) {
    PythonInt.ParseInt(c.index).Some?
  }

  predicate AllIndexed(chs: seq<Channel>) {
    forall i :: 0 <= i < |chs| ==> HasIntIndex(chs[i])
  }

  /** The sort key `int(index)`; only consulted once every index is known to parse. */
  function Key(c: Channel): int {
    match PythonInt.ParseInt(c.index)
    case Some(k) => k
    case None => 0
  }

  predicate Ascending(chs: seq<Channel>) {
    forall i, j :: 0 <= i < j < |chs| ==> Key(chs[i]) <= Key(chs[j])
  }

  /** The entries whose key is k, in their order in chs. */
  function WithKey(chs: seq<Channel>, k: int): seq<Channel> {
    if chs == [] then []
    else (if Key(chs[0]) == k then [chs[0]] else []) + WithKey(chs[1..], k)
  }

  /** Inserts c before the first entry whose key is not smaller. */
  function Insert(c: Channel, chs: seq<Channel>): (r: seq<Channel>)
    ensures |r| == |chs| + 1
    ensures multiset(r) == multiset(chs) + multiset{c}
    ensures r[0] == c || (chs != [] && r[0] == chs[0])
  {
    if chs == [] || Key(c) <= Key(chs[0]) then [c] + chs
    else
      assert chs == [chs[0]] + chs[1..];
      [chs[0]] + Insert(c, chs[1..])
  }

  /** An entry no larger than the head of an ascending sequence can go in front of it. */
  lemma AscendingCons(c: Channel, chs: seq<Channel>)
    requires Ascending(chs) && (chs != [] ==> Key(c) <= Key(chs[0]))
    ensures Ascending([c] + chs)
  {
    var r := [c] + chs;
    forall i, j | 0 <= i < j < |r| ensures Key(r[i]) <= Key(r[j]) {
      if i == 0 && j > 1 {
        assert r[j] == chs[j - 1] && r[1] == chs[0];
      }
    }
  }

  lemma {:induction false} InsertAscending(c: Channel, chs: seq<Channel>)
    requires Ascending(chs)
    ensures Ascending(Insert(c, chs))
  {
    if chs == [] || Key(c) <= Key(chs[0]) {
      AscendingCons(c, chs);
    } else {
      var tail := chs[1..];
      assert Ascending(tail) by {
        forall i, j | 0 <= i < j < |tail| ensures Key(tail[i]) <= Key(tail[j]) {
          assert tail[i] == chs[i + 1] && tail[j] == chs[j + 1];
        }
      }
      InsertAscending(c, tail);
      assert |chs| > 1 ==> Key(chs[0]) <= Key(chs[1]);
      AscendingCons(chs[0], Insert(c, tail));
    }
  }

  /** Stable insertion sort by Key. */
  function SortByIndex(chs: seq<Channel>): (r: seq<Channel>)
    ensures Ascending(r) && |r| == |chs|
    ensures multiset(r) == multiset(chs)
  {
    if chs == [] then []
    else
      assert chs == [chs[0]] + chs[1..];
      var rest := SortByIndex(chs[1..]);
      InsertAscending(chs[0], rest);
      Insert(chs[0], rest)
  }

  /**
   * The sort as the source performs it: every key is computed first, and an
   * index that is not an integer literal raises ValueError.
   */
  function SortedChannels(chs: seq<Channel>): (r: Option<seq<Channel>>)
    ensures r.Some? <==> AllIndexed(chs)
    ensures r.Some? ==> Ascending(r.value) && |r.value| == |chs| && multiset(r.value) == multiset(chs)
  {
    if AllIndexed(chs) then Some(SortByIndex(chs)) else None
  }

  lemma {:induction false} InsertWithKey(c: Channel, chs: seq<Channel>, k: int)
    ensures WithKey(Insert(c, chs), k) == if Key(c) == k then [c] + WithKey(chs, k) else WithKey(chs, k)
  {
    var r := Insert(c, chs);
    if chs == [] || Key(c) <= Key(chs[0]) {
      assert r[1..] == chs;
    } else {
      InsertWithKey(c, chs[1..], k);
      assert r[1..] == Insert(c, chs[1..]);
    }
  }

  /** Stability: for every key value, the entries with that key appear in their input order. */
  lemma {:induction false} SortIsStable(chs: seq<Channel>, k: int)
    ensures WithKey(SortByIndex(chs), k) == WithKey(chs, k)
  {
    if chs != [] {
      SortIsStable(chs[1..], k);
      InsertWithKey(chs[0], SortByIndex(chs[1..]), k);
    }
  }

  /** The sort is determined by its input: already ascending input is returned as it is. */
  lemma {:induction false} SortOfAscending(chs: seq<Channel>)
    requires Ascending(chs)
    ensures SortByIndex(chs) == chs
  {
    if chs != [] {
      SortOfAscending(chs[1..]);
      assert chs == [chs[0]] + chs[1..];
    }
  }
}
