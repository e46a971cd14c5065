/**
 * Accounting for the heap resources an icon load acquires and gives back.
 *
 * Every allocation, open, free and close that app/src/icon.c performs is an
 * event on a resource handle. A handle is the kind of object plus a serial
 * number, so two loads never share a handle. Replaying a log of events from a
 * set of live handles either yields the handles live afterwards or fails,
 * and it fails exactly on a double free, on freeing something never acquired,
 * or on acquiring a handle that is still live.
 */
module Resources {
  import opened Wrappers

  /** The kinds of resource that icon loading owns at some point. */
  datatype Kind =
    | FormatContext   // avformat_alloc_context / avformat_free_context
    | OpenedInput     // avformat_open_input / avformat_close_input
    | CodecContext    // avcodec_alloc_context3 / avcodec_free_context
    | OpenedCodec     // avcodec_open2 / avcodec_close
    | FrameObject     // av_frame_alloc / av_frame_free
    | PacketObject    // av_packet_alloc / av_packet_free
    | SurfaceObject   // SDL_CreateRGBSurfaceWithFormatFrom / SDL_FreeSurface
    | PathString      // strdup or get_local_file_path / free

  /** A handle: what C code holds as a pointer. */
  datatype Resource = Resource(kind: Kind, serial: nat)

  datatype Event = Acquire(res: Resource) | Release(res: Resource)

  /** The effect of one event on the live handles; None for a misuse. */
  function Apply(live: set<Resource>, e: Event): (r: Option<set<Resource>>)
    ensures r.Some? <==> (e.Acquire? <==> e.res !in live)
    ensures r.Some? && e.Acquire? ==> r.value == live + {e.res} && |r.value| == |live| + 1
    ensures r.Some? && e.Release? ==> r.value == live - {e.res} && |r.value| + 1 == |live|
  {
    match e
    case Acquire(x) => if x in live then None else Some(live + {x})
    case Release(x) => if x in live then Some(live - {x}) else None
  }

  /** Replays a log event by event, from the oldest to the newest. */
  function Replay(live: set<Resource>, log: seq<Event>): Option<set<Resource>>
    decreases |log|
  {
    if log == [] then Some(live)
    else match Replay(live, log[..|log| - 1])
      case None => None
      case Some(before) => Apply(before, log[|log| - 1])
  }

  /** Replays `log` after a replay that may already have failed. */
  function Continue(state: Option<set<Resource>>, log: seq<Event>): Option<set<Resource>>
  {
    match state
    case None => None
    case Some(live) => Replay(live, log)
  }

  /** Replaying a concatenation is replaying its halves one after the other. */
  lemma {:induction false} ReplayAppend(live: set<Resource>, a: seq<Event>, b: seq<Event>)
    ensures Replay(live, a + b) == Continue(Replay(live, a), b)
    decreases |b|
  {
    if b == [] {
      assert a + b == a;
    } else {
      var b' := b[..|b| - 1];
      assert (a + b)[..|a + b| - 1] == a + b';
      assert (a + b)[|a + b| - 1] == b[|b| - 1];
      ReplayAppend(live, a, b');
    }
  }

  /** The log that acquires the given handles in order. */
  function Acquires(hs: seq<Resource>): (log: seq<Event>)
  {
    seq(|hs|, i requires 0 <= i < |hs| => Acquire(hs[i]))
  }

  /** The log that releases the given handles in order. */
  function Releases(hs: seq<Resource>): (log: seq<Event>)
  {
    seq(|hs|, i requires 0 <= i < |hs| => Release(hs[i]))
  }

  function Reverse<T>(s: seq<T>): (r: seq<T>)
  {
    seq(|s|, i requires 0 <= i < |s| => s[|s| - 1 - i])
  }

  ghost predicate Distinct<T>(s: seq<T>)
  {
    forall i, j :: 0 <= i < j < |s| ==> s[i] != s[j]
  }

  /** Appending an element not yet present keeps a sequence free of repetitions. */
  lemma DistinctSnoc<T>(s: seq<T>, x: T)
    requires Distinct(s) && x !in s
    ensures Distinct(s + [x])
  {
  }

  function Elements<T>(s: seq<T>): set<T>
  {
    set x | x in s
  }

  /** The last element of a sequence of distinct elements is new to the rest. */
  lemma ElementsSnoc<T>(s: seq<T>)
    requires s != [] && Distinct(s)
    ensures s[|s| - 1] !in Elements(s[..|s| - 1])
    ensures Elements(s) == Elements(s[..|s| - 1]) + {s[|s| - 1]}
  {
    var s' := s[..|s| - 1];
    assert s == s' + [s[|s| - 1]];
    forall x | x in s' ensures x != s[|s| - 1] {
      var i :| 0 <= i < |s'| && s'[i] == x;
    }
  }

  /** The handles a log acquires, in the order it acquires them. */
  function Acquired(log: seq<Event>): seq<Resource>
    decreases |log|
  {
    if log == [] then []
    else Acquired(log[..|log| - 1]) + (if log[|log| - 1].Acquire? then [log[|log| - 1].res] else [])
  }

  /** The handles a log releases, in the order it releases them. */
  function Released(log: seq<Event>): seq<Resource>
    decreases |log|
  {
    if log == [] then []
    else Released(log[..|log| - 1]) + (if log[|log| - 1].Release? then [log[|log| - 1].res] else [])
  }

  lemma {:induction false} AcquiredReleasedAppend(a: seq<Event>, b: seq<Event>)
    ensures Acquired(a + b) == Acquired(a) + Acquired(b)
    ensures Released(a + b) == Released(a) + Released(b)
    decreases |b|
  {
    if b == [] {
      assert a + b == a;
    } else {
      var b' := b[..|b| - 1];
      assert (a + b)[..|a + b| - 1] == a + b';
      assert (a + b)[|a + b| - 1] == b[|b| - 1];
      AcquiredReleasedAppend(a, b');
    }
  }

  /** An acquiring log acquires exactly its handles and releases none. */
  lemma {:induction false} AcquiresFiltered(hs: seq<Resource>)
    ensures Acquired(Acquires(hs)) == hs
    ensures Released(Acquires(hs)) == []
    decreases |hs|
  {
    if hs != [] {
      var hs' := hs[..|hs| - 1];
      assert Acquires(hs)[..|hs| - 1] == Acquires(hs');
      AcquiresFiltered(hs');
    }
  }

  /** A releasing log releases exactly its handles and acquires none. */
  lemma {:induction false} ReleasesFiltered(hs: seq<Resource>)
    ensures Released(Releases(hs)) == hs
    ensures Acquired(Releases(hs)) == []
    decreases |hs|
  {
    if hs != [] {
      var hs' := hs[..|hs| - 1];
      assert Releases(hs)[..|hs| - 1] == Releases(hs');
      ReleasesFiltered(hs');
    }
  }

  /** Acquiring distinct handles none of which is live makes exactly them live. */
  lemma {:induction false} ReplayAcquires(live: set<Resource>, hs: seq<Resource>)
    requires Distinct(hs)
    requires forall i :: 0 <= i < |hs| ==> hs[i] !in live
    ensures Replay(live, Acquires(hs)) == Some(live + Elements(hs))
    decreases |hs|
  {
    if hs == [] {
      assert Acquires(hs) == [];
      assert Elements(hs) == {};
    } else {
      var hs', x := hs[..|hs| - 1], hs[|hs| - 1];
      assert Acquires(hs)[..|hs| - 1] == Acquires(hs');
      assert Acquires(hs)[|hs| - 1] == Acquire(x);
      ReplayAcquires(live, hs');
      ElementsSnoc(hs);
      assert x !in live + Elements(hs');
      assert Replay(live, Acquires(hs)) == Apply(live + Elements(hs'), Acquire(x));
      assert live + Elements(hs') + {x} == live + Elements(hs);
    }
  }

  /** Releasing distinct live handles leaves every other live handle live. */
  lemma {:induction false} ReplayReleases(live: set<Resource>, hs: seq<Resource>)
    requires Distinct(hs)
    requires forall i :: 0 <= i < |hs| ==> hs[i] in live
    ensures Replay(live, Releases(hs)) == Some(live - Elements(hs))
    decreases |hs|
  {
    if hs == [] {
      assert Releases(hs) == [];
      assert Elements(hs) == {};
      assert live - Elements(hs) == live;
    } else {
      var hs', x := hs[..|hs| - 1], hs[|hs| - 1];
      assert Releases(hs)[..|hs| - 1] == Releases(hs');
      assert Releases(hs)[|hs| - 1] == Release(x);
      ReplayReleases(live, hs');
      ElementsSnoc(hs);
      assert x in live - Elements(hs');
      assert Replay(live, Releases(hs)) == Apply(live - Elements(hs'), Release(x));
      assert live - Elements(hs') - {x} == live - Elements(hs);
    }
  }

  /**
   * Acquiring distinct fresh handles and then releasing them in reverse
   * order is a balanced log: every release finds its handle live, and
   * afterwards the live handles are the ones before. Its releases are its
   * acquisitions reversed.
   */
  lemma Unwind(live: set<Resource>, hs: seq<Resource>)
    requires Distinct(hs)
    requires forall i :: 0 <= i < |hs| ==> hs[i] !in live
    ensures Replay(live, Acquires(hs) + Releases(Reverse(hs))) == Some(live)
    ensures Released(Acquires(hs) + Releases(Reverse(hs))) == Reverse(Acquired(Acquires(hs) + Releases(Reverse(hs))))
  {
    UnwindReplays(live, hs);
    UnwindReleases(hs);
  }

  lemma UnwindReplays(live: set<Resource>, hs: seq<Resource>)
    requires Distinct(hs)
    requires forall i :: 0 <= i < |hs| ==> hs[i] !in live
    ensures Replay(live, Acquires(hs) + Releases(Reverse(hs))) == Some(live)
  {
    ReplayAppend(live, Acquires(hs), Releases(Reverse(hs)));
    ReplayAcquires(live, hs);
    ReverseKeeps(hs);
    ReplayReleases(live + Elements(hs), Reverse(hs));
    assert live + Elements(hs) - Elements(hs) == live;
  }

  lemma UnwindReleases(hs: seq<Resource>)
    ensures Acquired(Acquires(hs) + Releases(Reverse(hs))) == hs
    ensures Released(Acquires(hs) + Releases(Reverse(hs))) == Reverse(hs)
  {
    AcquiredReleasedAppend(Acquires(hs), Releases(Reverse(hs)));
    AcquiresFiltered(hs);
    ReleasesFiltered(Reverse(hs));
  }

  /** Reversing keeps the elements and their distinctness. */
  lemma ReverseKeeps<T>(s: seq<T>)
    ensures Elements(Reverse(s)) == Elements(s)
    ensures Distinct(s) ==> Distinct(Reverse(s))
  {
    var r := Reverse(s);
    forall x | x in s ensures x in r {
      var i :| 0 <= i < |s| && s[i] == x;
      assert r[|s| - 1 - i] == x;
    }
  }

  /** A one-event log: its replay is the event's effect, and it acquires or releases its handle. */
  lemma SingleEvent(live: set<Resource>, e: Event)
    ensures Replay(live, [e]) == Apply(live, e)
    ensures Acquired([e]) == (if e.Acquire? then [e.res] else [])
    ensures Released([e]) == (if e.Release? then [e.res] else [])
  {
    assert [e][..0] == [];
  }

  /** Regrouping a log built by appending one part after another. */
  lemma Regroup(log: seq<Event>, a: seq<Event>, b: seq<Event>, c: seq<Event>)
    ensures log + a + b + c == log + (a + b + c)
  {
  }

  /** Adding and then removing a handle that was not there leaves what else was added. */
  lemma AddRemove(live: set<Resource>, h: Resource, extra: set<Resource>)
    requires h !in live && h !in extra
    ensures live + {h} + extra - {h} == live + extra
  {
  }

  /**
   * A handle acquired before a log that stays within serials it does not
   * own, and released after it, is released exactly once, last.
   */
  lemma BracketReleasedOnce(h: Resource, log: seq<Event>, lo: nat, hi: nat)
    requires h.serial < lo
    requires Within(log, lo, hi)
    ensures var released := Released([Acquire(h)] + log + [Release(h)]);
      && released != [] && released[|released| - 1] == h
      && multiset(released)[h] == 1
  {
    AcquiredReleasedAppend([Acquire(h)], log);
    AcquiredReleasedAppend([Acquire(h)] + log, [Release(h)]);
    SingleEvent({}, Acquire(h));
    SingleEvent({}, Release(h));
    ReleasedWithin(log, lo, hi);
    assert h !in Released(log);
    var released := Released([Acquire(h)] + log + [Release(h)]);
    assert released == Released(log) + [h];
    assert multiset(released) == multiset(Released(log)) + multiset{h};
  }

  /**
   * Holding a fresh handle around a log: if the log, run with the handle
   * live, adds `extra` and leaves the handle alone, then acquiring the handle
   * before and releasing it after adds `extra` only.
   */
  lemma Bracket(live: set<Resource>, h: Resource, log: seq<Event>, extra: set<Resource>)
    requires h !in live && h !in extra
    requires Replay(live + {h}, log) == Some(live + {h} + extra)
    ensures Replay(live, [Acquire(h)] + log + [Release(h)]) == Some(live + extra)
  {
    ReplayAppend(live, [Acquire(h)], log);
    ReplayAppend(live, [Acquire(h)] + log, [Release(h)]);
    SingleEvent(live, Acquire(h));
    SingleEvent(live + {h} + extra, Release(h));
    AddRemove(live, h, extra);
  }

  /** Releasing the two handles a log added, one after the other, undoes the log. */
  lemma ReleasePair(live: set<Resource>, log: seq<Event>, x: Resource, y: Resource)
    requires x != y && x !in live && y !in live
    requires Replay(live, log) == Some(live + {x, y})
    ensures Replay(live, log + [Release(x), Release(y)]) == Some(live)
  {
    assert log + [Release(x), Release(y)] == (log + [Release(x)]) + [Release(y)];
    ReplayAppend(live, log + [Release(x)], [Release(y)]);
    ReplayAppend(live, log, [Release(x)]);
    SingleEvent(live + {x, y}, Release(x));
    SingleEvent(live + {x, y} - {x}, Release(y));
    assert live + {x, y} - {x} - {y} == live;
  }

  /** Every event of the log concerns a handle with a serial in [lo, hi). */
  ghost predicate Within(log: seq<Event>, lo: nat, hi: nat)
  {
    forall i :: 0 <= i < |log| ==> lo <= log[i].res.serial < hi
  }

  /** A log within a serial range releases only handles of that range. */
  lemma {:induction false} ReleasedWithin(log: seq<Event>, lo: nat, hi: nat)
    requires Within(log, lo, hi)
    ensures forall r :: r in Released(log) ==> lo <= r.serial < hi
    decreases |log|
  {
    if log != [] {
      ReleasedWithin(log[..|log| - 1], lo, hi);
    }
  }

  /**
   * The allocator, as far as icon loading can observe it: it hands out a new
   * handle on every successful acquisition and records every event.
   */
  class Ledger {
    var next: nat
    ghost var live: set<Resource>
    ghost var log: seq<Event>

    /** Every live handle is older than `next`, so a new handle is never live already. */
    ghost predicate Valid()
      reads this
    {
      forall r {:trigger r.serial} :: r in live ==> r.serial < next
    }

    constructor ()
      ensures Valid()
      ensures next == 0 && live == {} && log == []
    {
      next := 0;
      live := {};
      log := [];
    }

    /** A successful allocation or open of a resource of the given kind. */
    method Allocate(kind: Kind) returns (r: Resource)
      requires Valid()
      modifies this
      ensures Valid()
      ensures r == Resource(kind, old(next)) && next == old(next) + 1
      ensures r !in old(live) && live == old(live) + {r}
      ensures log == old(log) + [Acquire(r)]
    {
      r := Resource(kind, next);
      next := next + 1;
      log := log + [Acquire(r)];
      live := live + {r};
    }

    /** A free or close; only a live handle may be given back. */
    method Free(r: Resource)
      requires Valid()
      requires r in live
      modifies this
      ensures Valid()
      ensures next == old(next)
      ensures live == old(live) - {r}
      ensures log == old(log) + [Release(r)]
    {
      log := log + [Release(r)];
      live := live - {r};
    }
  }
}
