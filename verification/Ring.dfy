/** The circular buffer of recent session ids, against the history of what was pushed. */

module Ring {
  import opened Options

  // ---------------------------------------------------------------- history

  /** How many slots are populated after n pushes. */
  function Filled(n: nat, size: nat): nat {
    if n < size then n else size
  }

  /** The most recent of n pushes whose index is congruent to i. */
  ghost function Latest(n: nat, size: nat, i: nat): (j: nat)
    requires i < Filled(n, size)
    ensures j < n && j % size == i && forall k :: j < k < n ==> k % size != i
  {
    if (n - 1) % size == i then n - 1
    else
      assert i < Filled(n - 1, size) by {
        if n <= size {
          SmallMod(n - 1, size);
        }
      }
      Latest(n - 1, size, i)
  }

  lemma SmallMod(k: nat, size: nat)
    requires k < size
    ensures k % size == k
  {
  }

  lemma {:induction false} MultipleGrows(m: int, size: nat)
    requires m > 0
    ensures m * size >= size
    decreases m
  {
    if m > 1 {
      MultipleGrows(m - 1, size);
      assert m * size == (m - 1) * size + size;
    }
  }

  lemma MultiplesApart(m: int, size: nat)
    requires size > 0
    ensures m > 0 ==> m * size >= size
    ensures m < 0 ==> m * size + size <= 0
  {
    if m > 0 {
      MultipleGrows(m, size);
    } else if m < 0 {
      MultipleGrows(-m, size);
      assert m * size == -(-m * size);
    }
  }

  lemma ModUnique(a: nat, b: nat, q: nat, size: nat)
    requires size > 0 && b < size && a == q * size + b
    ensures a % size == b
  {
    var d := a / size;
    assert a == d * size + a % size;
    assert (d - q) * size == d * size - q * size;
    MultiplesApart(d - q, size);
  }

  lemma ModNext(k: nat, size: nat)
    requires size > 0
    ensures (k % size + 1) % size == (k + 1) % size
  {
    var q, r := k / size, k % size;
    assert k == q * size + r;
    if r + 1 < size {
      ModUnique(k + 1, r + 1, q, size);
      SmallMod(r + 1, size);
    } else {
      assert (q + 1) * size == q * size + size;
      ModUnique(k + 1, 0, q + 1, size);
      ModUnique(size, 0, 1, size);
    }
  }

  lemma ModShift(k: nat, size: nat)
    requires size > 0
    ensures (k + size) % size == k % size
  {
    var q, r := k / size, k % size;
    assert (q + 1) * size == q * size + size;
    ModUnique(k + size, r, q + 1, size);
  }

  /** Two indices less than a full turn apart share a slot only if they are the same. */
  lemma SlotsDiffer(a: nat, b: nat, size: nat)
    requires a < b < a + size
    ensures a % size != b % size
  {
    var q, p := a / size, b / size;
    assert a == q * size + a % size && b == p * size + b % size;
    assert (p - q) * size == p * size - q * size;
    MultiplesApart(p - q, size);
  }

  /** Every push among the last size of them is the latest of its slot. */
  lemma {:induction false} RecentIsLatest(n: nat, size: nat, j: nat)
    requires size > 0 && j < n <= j + size
    ensures j % size < Filled(n, size) && Latest(n, size, j % size) == j
  {
    if n <= size {
      SmallMod(j, size);
    }
    var k := Latest(n, size, j % size);
    if j < k {
      SlotsDiffer(j, k, size);
    }
  }

  /** The latest push of a slot is among the last size of them. */
  lemma {:induction false} LatestIsRecent(n: nat, size: nat, i: nat)
    requires i < Filled(n, size)
    ensures n - Filled(n, size) <= Latest(n, size, i)
  {
    var j := Latest(n, size, i);
    if j + size < n {
      ModShift(j, size);
    }
  }

  // ------------------------------------------------- what the slots hold

  /** The populated slots after a history of pushes. */
  ghost function Slots<T>(pushes: seq<T>, size: nat): (s: seq<T>)
    ensures |s| == Filled(|pushes|, size)
    ensures forall i :: 0 <= i < |s| ==> s[i] == pushes[Latest(|pushes|, size, i)]
  {
    seq(Filled(|pushes|, size), i requires 0 <= i < Filled(|pushes|, size) => pushes[Latest(|pushes|, size, i)])
  }

  ghost function LastOf<T>(pushes: seq<T>, size: nat): seq<T> {
    pushes[|pushes| - Filled(|pushes|, size)..]
  }

  lemma SlotsPush<T>(pushes: seq<T>, x: T, size: nat)
    requires size > 0
    ensures var n := |pushes|;
      Slots(pushes + [x], size) == if n < size then Slots(pushes, size) + [x] else Slots(pushes, size)[n % size := x]
  {
    var n := |pushes|;
    if n < size {
      SmallMod(n, size);
    }
  }

  lemma UpdateMultiset<T>(s: seq<T>, i: nat, x: T)
    requires i < |s|
    ensures multiset(s[i := x]) == multiset(s) - multiset{s[i]} + multiset{x}
  {
  }

  lemma SlideMultiset<T>(s: seq<T>, x: T)
    requires s != []
    ensures multiset(s[1..] + [x]) == multiset(s) - multiset{s[0]} + multiset{x}
  {
    assert s == [s[0]] + s[1..];
  }

  /** A full ring's next slot holds the oldest of the last pushes. */
  lemma OldestSlot<T>(pushes: seq<T>, size: nat)
    requires 0 < size <= |pushes|
    ensures |pushes| % size < |Slots(pushes, size)| && |LastOf(pushes, size)| == size
    ensures Slots(pushes, size)[|pushes| % size] == LastOf(pushes, size)[0]
  {
    var n := |pushes|;
    ModShift(n - size, size);
    RecentIsLatest(n, size, n - size);
  }

  lemma LastOfPush<T>(pushes: seq<T>, x: T, size: nat)
    requires size > 0
    ensures LastOf(pushes + [x], size) ==
      (if |pushes| < size then LastOf(pushes, size) else LastOf(pushes, size)[1..]) + [x]
  {
  }

  /** The populated slots hold exactly the last pushes. */
  lemma {:induction false} SlotsAreLast<T>(pushes: seq<T>, size: nat)
    requires size > 0
    ensures multiset(Slots(pushes, size)) == multiset(LastOf(pushes, size))
  {
    if pushes == [] {
    } else {
      var n := |pushes| - 1;
      var init, x := pushes[..n], pushes[n];
      assert pushes == init + [x];
      SlotsAreLast(init, size);
      SlotsPush(init, x, size);
      LastOfPush(init, x, size);
      if n >= size {
        OldestSlot(init, size);
      }
      hide LastOf;
      hide Slots;
      hide Latest;
      if n >= size {
        UpdateMultiset(Slots(init, size), n % size, x);
        SlideMultiset(LastOf(init, size), x);
      }
    }
  }

  lemma {:induction false} PushedLast<T>(pushes: seq<T>, size: nat)
    requires size > 0
    ensures var n := if |pushes| < size then |pushes| else size;
      Filled(|pushes|, size) == n && multiset(Slots(pushes, size)) == multiset(pushes[|pushes| - n..])
  {
    SlotsAreLast(pushes, size);
  }

  /** Each of the last pushes is reached by exactly one draw. */
  lemma {:induction false} OneDrawEach(n: nat, size: nat, j: nat)
    requires size > 0 && n - Filled(n, size) <= j < n
    ensures j % size < Filled(n, size) && Latest(n, size, j % size) == j
    ensures forall i :: 0 <= i < Filled(n, size) && Latest(n, size, i) == j ==> i == j % size
  {
    RecentIsLatest(n, size, j);
  }

  /** Where the next push goes, and what it does to head and fill. */
  lemma PushIndices(n: nat, size: nat)
    requires size > 0
    ensures (n % size + 1) % size == (n + 1) % size
    ensures n < size ==> n % size == n && Filled(n, size) == n && Filled(n + 1, size) == n + 1
    ensures n >= size ==> Filled(n, size) == size == Filled(n + 1, size)
    ensures n % size < size
  {
    ModNext(n, size);
    if n < size {
      SmallMod(n, size);
    }
  }

  // ---------------------------------------------------------------- the code

  /** `pushes` is everything pushed so far. */
  class SessionRing<T(0)> {
    const buf: array<T>
    const size: nat
    var head: nat
    var fill: nat
    ghost var pushes: seq<T>

    ghost predicate Valid()
      reads this, buf
    {
      && buf.Length == size > 0
      && head == |pushes| % size && fill == Filled(|pushes|, size)
      && forall i :: 0 <= i < fill ==> buf[i] == pushes[Latest(|pushes|, size, i)]
    }

    constructor (size: nat)
      requires size > 0
      ensures Valid() && pushes == [] && this.size == size && fresh(buf)
    {
      buf := new T[size];
      this.size := size;
      head, fill, pushes := 0, 0, [];
    }

    /** The populated slots hold the last pushes, as many as there are or fit. */
    lemma Content()
      requires Valid()
      ensures buf[..fill] == Slots(pushes, size)
      ensures fill == (if |pushes| < size then |pushes| else size) <= buf.Length
      ensures multiset(buf[..fill]) == multiset(pushes[|pushes| - fill..])
    {
      assert buf[..fill] == Slots(pushes, size);
      hide Slots;
      PushedLast(pushes, size);
    }

    lemma Indices()
      requires Valid()
      ensures buf.Length == size > 0 && head == |pushes| % size && fill == Filled(|pushes|, size)
    {
    }

    lemma SlotsValid()
      requires buf.Length == size > 0 && head == |pushes| % size && fill == Filled(|pushes|, size) <= size
      requires buf[..fill] == Slots(pushes, size)
      ensures Valid()
    {
      assert forall i :: 0 <= i < fill ==> buf[i] == buf[..fill][i];
    }

    method Push(id: T)
      requires Valid()
      modifies this, buf
      ensures Valid() && pushes == old(pushes) + [id]
      ensures fill == (if |pushes| < size then |pushes| else size) <= buf.Length
      ensures multiset(buf[..fill]) == multiset(pushes[|pushes| - fill..])
    {
      hide *;
      Content();
      Indices();
      PushIndices(|pushes|, size);
      SlotsPush(pushes, id, size);
      buf[head] := id;
      head := (head + 1) % size;
      if fill < size {
        fill := fill + 1;
      }
      pushes := pushes + [id];
      assert buf[..fill] == Slots(pushes, size);
      SlotsValid();
      Content();
    }

    /** A populated slot, chosen by a draw below the number of them; nothing if there is none. */
    method Sample(draw: nat) returns (r: Option<T>)
      requires Valid() && (pushes != [] ==> draw < fill)
      ensures r.None? <==> pushes == []
      ensures r.Some? ==> r.value == pushes[Latest(|pushes|, size, draw)] && r.value in LastOf(pushes, size)
      ensures r.Some? ==> r.value in pushes[if |pushes| < size then 0 else |pushes| - size..]
    {
      if fill == 0 {
        return None;
      }
      LatestIsRecent(|pushes|, size, draw);
      ghost var j := Latest(|pushes|, size, draw) - (|pushes| - fill);
      assert LastOf(pushes, size)[j] == pushes[Latest(|pushes|, size, draw)];
      return Some(buf[draw]);
    }
  }
}
