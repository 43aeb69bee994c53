/** Counting the elements of finite sets. */
module FiniteSets {

  /** Everything found for one of the days. */
  function Over<D, T>(rows: D -> set<T>, days: set<D>): set<T> {
    set day, row | day in days && row in rows(day) :: row
  }

  lemma OverOneMore<D, T>(rows: D -> set<T>, days: set<D>, day: D)
    ensures Over(rows, days + {day}) == Over(rows, days) + rows(day)
  {
  }

  lemma CountTogether<T>(a: set<T>, b: set<T>)
    requires a !! b
    ensures |a + b| == |a| + |b|
  {
  }

  /** No element is found for two days. */
  ghost predicate Apart<D(!new), T(!new)>(rows: D -> set<T>, days: set<D>) {
    forall d, e, x :: d in days && e in days && x in rows(d) && x in rows(e) ==> d == e
  }

  lemma OthersApart<D(!new), T(!new)>(rows: D -> set<T>, rest: set<D>, day: D)
    requires Apart(rows, rest + {day}) && day !in rest
    ensures Over(rows, rest) !! rows(day)
  {
  }

  /** Equally large, pairwise disjoint sets add up. */
  lemma {:induction false} UnionCount<D(!new), T(!new)>(rows: D -> set<T>, days: set<D>, size: nat)
    requires Apart(rows, days) && forall d :: d in days ==> |rows(d)| == size
    ensures |Over(rows, days)| == size * |days|
    decreases |days|
  {
    if days == {} {
      assert Over(rows, days) == {};
    } else {
      var rest, d := TakeOne(days);
      ApartIn(rows, rest, days);
      UnionCount(rows, rest, size);
      UnionOneMore(rows, rest, d);
      OneMoreTimes(size, |rest|);
    }
  }

  lemma TakeOne<D>(days: set<D>) returns (rest: set<D>, day: D)
    requires days != {}
    ensures day !in rest && days == rest + {day} && |days| == |rest| + 1
  {
    day :| day in days;
    rest := days - {day};
  }

  lemma UnionOneMore<D(!new), T(!new)>(rows: D -> set<T>, rest: set<D>, day: D)
    requires Apart(rows, rest + {day}) && day !in rest
    ensures |Over(rows, rest + {day})| == |Over(rows, rest)| + |rows(day)|
  {
    OverOneMore(rows, rest, day);
    OthersApart(rows, rest, day);
    CountTogether(Over(rows, rest), rows(day));
  }

  lemma ApartIn<D(!new), T(!new)>(rows: D -> set<T>, some: set<D>, days: set<D>)
    requires Apart(rows, days) && some <= days
    ensures Apart(rows, some)
  {
  }

  lemma OneMoreTimes(size: nat, n: nat)
    ensures size * (n + 1) == size * n + size
  {
  }

  lemma CountThree<T(!new)>(all: set<T>, before: set<T>, on: set<T>, after: set<T>)
    requires forall x :: x in all <==> x in before || x in on || x in after
    requires before !! on && before !! after && on !! after
    ensures |all| == |before| + |on| + |after|
  {
    assert all == before + on + after;
    CountTogether(before, on);
    CountTogether(before + on, after);
  }

  lemma InOver<D, T>(rows: D -> set<T>, days: set<D>, day: D, x: T)
    requires day in days && x in rows(day)
    ensures x in Over(rows, days)
  {
  }
}
