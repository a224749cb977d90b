// Reading the rows of one job and sorting them in memory, as the payment and asset repositories
// do: a selection of a table's rows, each once, ordered by rank.
module Listings {
  type Id = string

  ghost predicate Each<T(!new)>(rows: map<Id, T>, id: T -> Id, mine: T -> bool, ids: set<Id>, list: seq<T>) {
    forall i :: 0 <= i < |list| ==>
      id(list[i]) in ids && id(list[i]) in rows && rows[id(list[i])] == list[i] && mine(list[i])
  }

  ghost predicate Every<T(!new)>(rows: map<Id, T>, mine: T -> bool, ids: set<Id>, list: seq<T>) {
    forall k :: k in ids && k in rows && mine(rows[k]) ==> rows[k] in list
  }

  ghost predicate Once<T(!new)>(id: T -> Id, list: seq<T>) {
    forall i, j :: 0 <= i < j < |list| ==> id(list[i]) != id(list[j])
  }

  ghost predicate Ranked<T(!new)>(rank: T -> int, list: seq<T>) {
    forall i, j :: 0 <= i < j < |list| ==> rank(list[i]) <= rank(list[j])
  }

  /** list holds the rows that are mine among ids, each once, by rank. */
  ghost predicate Lists<T(!new)>(rows: map<Id, T>, id: T -> Id, mine: T -> bool, rank: T -> int, ids: set<Id>,
      list: seq<T>) {
    Each(rows, id, mine, ids, list) && Every(rows, mine, ids, list) && Once(id, list) && Ranked(rank, list)
  }

  ghost predicate WellKeyed<T(!new)>(rows: map<Id, T>, id: T -> Id) {
    forall k :: k in rows ==> id(rows[k]) == k
  }

  method InsertSorted<T(!new)>(list: seq<T>, x: T, rank: T -> int) returns (r: seq<T>, ghost at: nat)
    requires Ranked(rank, list)
    ensures at <= |list| && r == list[..at] + [x] + list[at..] && Ranked(rank, r)
  {
    var i := 0;
    while i < |list| && rank(list[i]) <= rank(x)
      invariant i <= |list|
      invariant forall k :: 0 <= k < i ==> rank(list[k]) <= rank(x)
    {
      i := i + 1;
    }
    at := i;
    r := list[..i] + [x] + list[i..];
  }

  lemma EveryOneMore<T(!new)>(rows: map<Id, T>, mine: T -> bool, ids: set<Id>, list: seq<T>, k: Id, at: nat)
    requires Every(rows, mine, ids, list) && k in rows && at <= |list|
    ensures Every(rows, mine, ids + {k}, list[..at] + [rows[k]] + list[at..])
  {
    var r := list[..at] + [rows[k]] + list[at..];
    forall x | x in ids + {k} && x in rows && mine(rows[x]) ensures rows[x] in r {
      if x == k {
        assert r[at] == rows[k];
      } else {
        var i :| 0 <= i < |list| && list[i] == rows[x];
        assert r[if i < at then i else i + 1] == rows[x];
      }
    }
  }

  lemma OnceOneMore<T(!new)>(id: T -> Id, list: seq<T>, x: T, at: nat)
    requires Once(id, list) && at <= |list| && forall i :: 0 <= i < |list| ==> id(list[i]) != id(x)
    ensures Once(id, list[..at] + [x] + list[at..])
  {
  }

  lemma ListsOneMore<T(!new)>(rows: map<Id, T>, id: T -> Id, mine: T -> bool, rank: T -> int, ids: set<Id>,
                              list: seq<T>, k: Id, at: nat, r: seq<T>)
    requires WellKeyed(rows, id) && Lists(rows, id, mine, rank, ids, list) && k in rows && k !in ids && mine(rows[k])
    requires at <= |list| && r == list[..at] + [rows[k]] + list[at..] && Ranked(rank, r)
    ensures Lists(rows, id, mine, rank, ids + {k}, r)
  {
    hide Once, Every, Ranked;
    EveryOneMore(rows, mine, ids, list, k, at);
    OnceOneMore(id, list, rows[k], at);
  }

  /** The rows that are mine, in order: one pass over the table, inserting each. */
  method SelectSorted<T(!new)>(rows: map<Id, T>, ghost id: T -> Id, mine: T -> bool,
      rank: T -> int) returns (list: seq<T>)
    requires WellKeyed(rows, id)
    ensures Lists(rows, id, mine, rank, rows.Keys, list)
  {
    list := [];
    var todo, seen := rows.Keys, {};
    while todo != {}
      invariant todo + seen == rows.Keys && todo !! seen
      invariant Lists(rows, id, mine, rank, seen, list)
    {
      var k :| k in todo;
      if mine(rows[k]) {
        var longer, at := InsertSorted(list, rows[k], rank);
        ListsOneMore(rows, id, mine, rank, seen, list, k, at, longer);
        list := longer;
      }
      todo, seen := todo - {k}, seen + {k};
    }
  }
}
