/**
 * The bookkeeping of a persistor's fan-out over its persistoids: snapshots
 * of their fields and storages in registration order, and what a fan-out
 * that has reached the n-th persistoid has written so far.
 */
module FanOutState {
  import opened Js
  import opened Host
  import opened StorageKey
  import opened Slice
  import opened Snapshot

  /** The storage keys of the registered persistoids that write to `s`. */
  ghost function KeysIn(ps: seq<Persistoid>, s: Storage): set<string>
  {
    set p | p in ps && p.config.storage == s :: BuildKey(p.config)
  }

  /** Appending a persistoid adds its key for its own storage only. */
  lemma KeysInSnoc(ps: seq<Persistoid>, p: Persistoid, s: Storage)
    ensures KeysIn(ps + [p], s) == KeysIn(ps, s) + (if p.config.storage == s then {BuildKey(p.config)} else {})
  {
    assert forall q | q in ps + [p] :: q in ps || q == p;
  }

  /**
   * The persistoid at index `i` is the only one registered that writes its
   * key to its storage, so no other write of a fan-out replaces its own.
   */
  ghost predicate Sole(ps: seq<Persistoid>, i: int)
    requires 0 <= i < |ps|
  {
    forall j | 0 <= j < |ps| && j != i ::
      ps[j].config.storage != ps[i].config.storage || BuildKey(ps[j].config) != BuildKey(ps[i].config)
  }

  /**
   * What a fan-out starts from, for each registered persistoid in
   * registration order: its last state, the items of its storage, its
   * paused flag and its restore helper.
   */
  datatype Start = Start(last: seq<Value>, items: seq<map<string, string>>, paused: seq<bool>, owners: seq<Restorer?>)

  /** The start of a fan-out over `ps` in the current state. */
  ghost function Begin(ps: seq<Persistoid>): (r: Start)
    reads set p | p in ps, set p | p in ps :: p.config.storage
    ensures |r.last| == |ps| && |r.items| == |ps| && |r.paused| == |ps| && |r.owners| == |ps|
    ensures forall j | 0 <= j < |ps| ::
      r.last[j] == ps[j].lastState && r.items[j] == ps[j].config.storage.items &&
      r.paused[j] == ps[j].isPaused && r.owners[j] == ps[j].owner
  {
    Start(seq(|ps|, j requires 0 <= j < |ps| reads set p | p in ps => ps[j].lastState),
          Contents(ps),
          seq(|ps|, j requires 0 <= j < |ps| reads set p | p in ps => ps[j].isPaused),
          seq(|ps|, j requires 0 <= j < |ps| reads set p | p in ps => ps[j].owner))
  }

  /** The items of each registered persistoid's storage, in registration order. */
  ghost function Contents(ps: seq<Persistoid>): (r: seq<map<string, string>>)
    reads set p | p in ps :: p.config.storage
    ensures |r| == |ps| && forall j | 0 <= j < |ps| :: r[j] == ps[j].config.storage.items
  {
    seq(|ps|, j requires 0 <= j < |ps| reads set p | p in ps :: p.config.storage => ps[j].config.storage.items)
  }

  /** What a fan-out tracks of one persistoid: linked, restore helper, paused, no pending write, last state. */
  datatype Row = Row(linked: bool, owner: Restorer?, paused: bool, idle: bool, last: Value)

  ghost function RowOf(p: Persistoid): Row
    reads p
  {
    Row(p.Linked(), p.owner, p.isPaused, p.timer == None, p.lastState)
  }

  /** The row of each registered persistoid, in registration order. */
  ghost function Rows(ps: seq<Persistoid>): (r: seq<Row>)
    reads set p | p in ps
    ensures |r| == |ps| && forall j | 0 <= j < |ps| :: r[j] == RowOf(ps[j])
  {
    seq(|ps|, j requires 0 <= j < |ps| reads set p | p in ps => RowOf(ps[j]))
  }

  /** Every persistoid is linked and keeps its restore helper (and, unless resuming, its paused flag) from the start. */
  ghost predicate Kept(rows: seq<Row>, s: Start, resume: bool)
  {
    |s.paused| == |rows| && |s.owners| == |rows| &&
    forall j | 0 <= j < |rows| ::
      rows[j].linked && rows[j].owner == s.owners[j] && (!resume ==> rows[j].paused == s.paused[j])
  }

  /**
   * The first `n` persistoids have no pending write and no last state (and
   * are resumed when `resume`); each later sole one still has its last
   * state from the start.
   */
  ghost predicate Done(ps: seq<Persistoid>, rows: seq<Row>, n: int, s: Start, resume: bool)
  {
    |rows| == |ps| && 0 <= n <= |ps| && |s.last| == |ps| &&
    (forall j | 0 <= j < n :: rows[j].idle && !Truthy(rows[j].last) && (resume ==> !rows[j].paused)) &&
    (forall j | n <= j < |ps| && Sole(ps, j) :: rows[j].last == s.last[j])
  }

  /**
   * How far a fan-out from `start` has got: the number of persistoids that
   * have written (`written` holds what each one encoded), when their rows
   * and the storage items `now` are what the fan-out reaches after that
   * many; nothing otherwise.
   */
  ghost function Reached(ps: seq<Persistoid>, rows: seq<Row>, written: seq<map<string, Value>>, s: Start, resume: bool,
                         now: seq<map<string, string>>): Option<nat>
  {
    if Kept(rows, s, resume) && Done(ps, rows, |written|, s, resume) && Progress(ps, |written|, written, s, now)
    then Some(|written|) else None
  }

  /**
   * A write of persistoid `i` that changed no other persistoid's row and
   * only its own key carries a fan-out that had reached `i` persistoids to
   * `i + 1` when it succeeded (`ok`), and leaves it at `i` when it threw.
   */
  lemma Advance(ps: seq<Persistoid>, i: int, s: Start, resume: bool, ok: bool, written: seq<map<string, Value>>,
                values: map<string, Value>, rows0: seq<Row>, rows1: seq<Row>, pre: seq<map<string, string>>, post: seq<map<string, string>>)
    requires 0 <= i < |ps| && |rows0| == |ps| && |rows1| == |ps| && |post| == |ps|
    requires Reached(ps, rows0, written, s, resume, pre) == Some(i)
    requires forall j | 0 <= j < |ps| && ps[j] == ps[i] :: rows0[j] == rows0[i]
    requires forall j | 0 <= j < |ps| :: rows1[j] == if ps[j] == ps[i] then rows1[i] else rows0[j]
    requires rows1[i].linked && rows1[i].owner == rows0[i].owner && rows1[i].idle
    requires if resume then !rows1[i].paused else rows1[i].paused == rows0[i].paused
    requires if ok then !Truthy(rows1[i].last) else rows1[i].last == rows0[i].last
    requires Stepped(ps, i, pre, post)
    requires !ok ==> post == pre
    requires ok && Sole(ps, i) ==>
      Entry(post[i], BuildKey(ps[i].config)) ==
        if Truthy(s.last[i]) then Some(Encode(ps[i].config, s.last[i], values)) else Entry(pre[i], BuildKey(ps[i].config))
    ensures ok ==> Reached(ps, rows1, written + [values], s, resume, post) == Some(i + 1)
    ensures !ok ==> Reached(ps, rows1, written, s, resume, post) == Some(i)
  {
    Carried(ps, i, s, resume, ok, rows0, rows1);
    if ok {
      ProgressStep(ps, i, written, values, s, pre, post);
    }
  }

  /**
   * A write of persistoid `i` that changed no other persistoid's row
   * keeps the fan-out's persistoids linked, and either completes
   * persistoid `i` (`ok`) or leaves its last state as it was.
   */
  lemma Carried(ps: seq<Persistoid>, i: int, s: Start, resume: bool, ok: bool, rows0: seq<Row>, rows1: seq<Row>)
    requires 0 <= i < |ps| && |rows0| == |ps| && |rows1| == |ps|
    requires Kept(rows0, s, resume) && Done(ps, rows0, i, s, resume)
    requires forall j | 0 <= j < |ps| && ps[j] == ps[i] :: rows0[j] == rows0[i]
    requires forall j | 0 <= j < |ps| :: rows1[j] == if ps[j] == ps[i] then rows1[i] else rows0[j]
    requires rows1[i].linked && rows1[i].owner == rows0[i].owner && rows1[i].idle
    requires if resume then !rows1[i].paused else rows1[i].paused == rows0[i].paused
    requires if ok then !Truthy(rows1[i].last) else rows1[i].last == rows0[i].last
    ensures Kept(rows1, s, resume) && Done(ps, rows1, if ok then i + 1 else i, s, resume)
  {
    forall j | 0 <= j < |ps| && j != i && Sole(ps, j)
      ensures ps[j] != ps[i]
    {
    }
  }

  /** Between `pre` and `post` only the key of persistoid `i` in its own storage may have changed. */
  ghost predicate Stepped(ps: seq<Persistoid>, i: int, pre: seq<map<string, string>>, post: seq<map<string, string>>)
    requires 0 <= i < |ps| == |pre| == |post|
  {
    forall j | 0 <= j < |ps| ::
      post[j] - {BuildKey(ps[i].config)} == pre[j] - {BuildKey(ps[i].config)} &&
      (ps[j].config.storage != ps[i].config.storage ==> post[j] == pre[j])
  }

  /**
   * The first `n` persistoids of a fan-out have written, from the start
   * `s`, giving the storage items `now`: each sole persistoid's key holds
   * its encoded snapshot if it wrote one and its earlier text otherwise,
   * and no key outside those of the first `n` persistoids changed.
   */
  ghost predicate Progress(ps: seq<Persistoid>, n: int, written: seq<map<string, Value>>, s: Start, now: seq<map<string, string>>)
  {
    match s
    case Start(last0, items0, _, _) =>
      0 <= n <= |ps| && n <= |written| && |last0| == |ps| && |items0| == |ps| && |now| == |ps| &&
      (forall j | 0 <= j < |ps| && Sole(ps, j) ::
        Entry(now[j], BuildKey(ps[j].config)) ==
          if j < n && Truthy(last0[j]) then Some(Encode(ps[j].config, last0[j], written[j]))
          else Entry(items0[j], BuildKey(ps[j].config))) &&
      (forall j | 0 <= j < |ps| ::
        now[j] - KeysIn(ps[..n], ps[j].config.storage) == items0[j] - KeysIn(ps[..n], ps[j].config.storage))
  }

  /** One more persistoid's write keeps a fan-out's progress. */
  lemma ProgressStep(ps: seq<Persistoid>, i: int, written: seq<map<string, Value>>, values: map<string, Value>,
                     s: Start, pre: seq<map<string, string>>, post: seq<map<string, string>>)
    requires 0 <= i < |ps| == |post| && |written| == i
    requires Progress(ps, i, written, s, pre) && Stepped(ps, i, pre, post)
    requires Sole(ps, i) ==>
      Entry(post[i], BuildKey(ps[i].config)) ==
        if Truthy(s.last[i]) then Some(Encode(ps[i].config, s.last[i], values)) else Entry(pre[i], BuildKey(ps[i].config))
    ensures Progress(ps, i + 1, written + [values], s, post)
  {
    var items0 := s.items;
    var key := BuildKey(ps[i].config);
    forall j | 0 <= j < |ps| && Sole(ps, j) && j != i
      ensures Entry(post[j], BuildKey(ps[j].config)) == Entry(pre[j], BuildKey(ps[j].config))
    {
      var kj := BuildKey(ps[j].config);
      if ps[j].config.storage == ps[i].config.storage {
        assert kj != key;
        assert kj in post[j] <==> kj in post[j] - {key};
        assert kj in pre[j] <==> kj in pre[j] - {key};
        assert kj in post[j] ==> post[j][kj] == (post[j] - {key})[kj];
        assert kj in pre[j] ==> pre[j][kj] == (pre[j] - {key})[kj];
      }
    }
    assert ps[..i + 1] == ps[..i] + [ps[i]];
    forall j | 0 <= j < |ps|
      ensures post[j] - KeysIn(ps[..i + 1], ps[j].config.storage) == items0[j] - KeysIn(ps[..i + 1], ps[j].config.storage)
    {
      KeysInGrow(ps[..i], ps[i], ps[j].config.storage);
      MinusMore(post[j], items0[j], pre[j], KeysIn(ps[..i], ps[j].config.storage), KeysIn(ps[..i + 1], ps[j].config.storage), key);
    }
  }

  /** A fan-out stopped after `n` persistoids changed nothing outside the keys of all of them. */
  lemma KeysOutside(ps: seq<Persistoid>, n: int, written: seq<map<string, Value>>, s: Start, now: seq<map<string, string>>)
    requires Progress(ps, n, written, s, now)
    ensures Outside(ps, s, now)
  {
    forall j | 0 <= j < |ps|
      ensures now[j] - KeysIn(ps, ps[j].config.storage) == s.items[j] - KeysIn(ps, ps[j].config.storage)
    {
      var st := ps[j].config.storage;
      assert KeysIn(ps[..n], st) <= KeysIn(ps, st) by {
        forall p | p in ps[..n] ensures p in ps { }
      }
      MinusMore(now[j], s.items[j], now[j], KeysIn(ps[..n], st), KeysIn(ps, st), "");
    }
  }

  /** No storage changed, from the start `s`, outside the keys of the registered persistoids that write to it. */
  ghost predicate Outside(ps: seq<Persistoid>, s: Start, now: seq<map<string, string>>)
  {
    match s
    case Start(_, items0, _, _) =>
      |items0| == |ps| && |now| == |ps| &&
      forall j | 0 <= j < |ps| :: now[j] - KeysIn(ps, ps[j].config.storage) == items0[j] - KeysIn(ps, ps[j].config.storage)
  }

  /** A completed fan-out: every sole persistoid's key holds what it wrote, or what it held. */
  lemma Finished(ps: seq<Persistoid>, written: seq<map<string, Value>>, s: Start, now: seq<map<string, string>>)
    requires Progress(ps, |ps|, written, s, now)
    ensures forall j | 0 <= j < |ps| && Sole(ps, j) ::
      Entry(now[j], BuildKey(ps[j].config)) ==
        if Truthy(s.last[j]) then Some(Encode(ps[j].config, s.last[j], written[j])) else Entry(s.items[j], BuildKey(ps[j].config))
  {
  }

  /**
   * Two maps that agree outside the keys `k` still agree outside any larger
   * set `k2`, and a map `a` that differs from `c` only at a key of `k2`
   * (or not at all) joins them.
   */
  lemma MinusMore(a: map<string, string>, b: map<string, string>, c: map<string, string>,
                  k: set<string>, k2: set<string>, x: string)
    requires c - k == b - k && k <= k2
    requires a - {x} == c - {x} && (x in k2 || a == c)
    ensures a - k2 == b - k2
  {
    forall y | y !in k2
      ensures (y in a <==> y in b) && (y in a ==> a[y] == b[y])
    {
      assert y != x || a == c;
      if y != x {
        assert (y in a <==> y in a - {x}) && (y in c <==> y in c - {x});
        assert y in a ==> a[y] == (a - {x})[y];
        assert y in c ==> c[y] == (c - {x})[y];
      }
      assert (y in c <==> y in c - k) && (y in b <==> y in b - k);
      assert y in c ==> c[y] == (c - k)[y];
      assert y in b ==> b[y] == (b - k)[y];
    }
    assert a - k2 == b - k2;
  }

  /** A write to one of the listed keys leaves the storage outside them as it was. */
  lemma KeysInGrow(ps: seq<Persistoid>, p: Persistoid, s: Storage)
    ensures p.config.storage == s ==> BuildKey(p.config) in KeysIn(ps + [p], s)
    ensures KeysIn(ps, s) <= KeysIn(ps + [p], s)
  {
    KeysInSnoc(ps, p, s);
  }
}
