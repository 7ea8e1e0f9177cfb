/** The three bounded histories (messages, statuses, reels): the capped
    append, the status time-to-live sweep, the lookup by id and the
    owner-only delete. */
module History {
  import opened JsValues
  import opened Seqs
  import opened Records

  const MAX_HISTORY: nat := 100
  const MAX_STATUS_HISTORY: nat := 50
  const MAX_REEL_HISTORY: nat := 30
  /** 24 hours in milliseconds. */
  const STATUS_TTL_MS: nat := 24 * 60 * 60 * 1000

  function Min(a: nat, b: nat): nat {
    if a <= b then a else b
  }

  /** `h.push(x); if (h.length > cap) h.shift();`: the new entry goes last and
      at most the oldest entry is dropped. */
  function Capped<T>(h: seq<T>, x: T, cap: nat): (r: seq<T>)
    requires cap > 0
    ensures |h| <= |r| <= |h| + 1 && r != [] && r[|r| - 1] == x
    ensures |h| < cap ==> r == h + [x]
    ensures cap <= |h| ==> r == h[1..] + [x]
    ensures |h| <= cap ==> |r| <= cap
  {
    var pushed := h + [x];
    if |pushed| > cap then pushed[1..] else pushed
  }

  /** The history after appending each of `xs`, in order, to `h`. */
  function AppendAll<T>(h: seq<T>, xs: seq<T>, cap: nat): seq<T>
    requires cap > 0
    decreases |xs|
  {
    if xs == [] then h else Capped(AppendAll(h, xs[..|xs| - 1], cap), xs[|xs| - 1], cap)
  }

  /** Starting within capacity, any run of appends leaves exactly the newest
      `cap` entries of everything appended so far, oldest first. */
  lemma {:induction false} AppendAllKeepsNewest<T>(h: seq<T>, xs: seq<T>, cap: nat)
    requires cap > 0 && |h| <= cap
    ensures var all := h + xs; AppendAll(h, xs, cap) == all[|all| - Min(|all|, cap)..]
  {
    if xs == [] {
      assert h + xs == h;
    } else {
      var ys, y := xs[..|xs| - 1], xs[|xs| - 1];
      AppendAllKeepsNewest(h, ys, cap);
      var before, all := h + ys, h + xs;
      assert all == before + [y];
      var f := AppendAll(h, ys, cap);
      assert AppendAll(h, xs, cap) == Capped(f, y, cap);
      if |before| < cap {
        assert f == before;
        assert Capped(f, y, cap) == all;
      } else {
        assert |f| == cap && f == before[|before| - cap..];
        assert Capped(f, y, cap) == (f + [y])[1..];
        assert (f + [y])[1..] == all[|all| - cap..];
      }
    }
  }

  /** Whether `cleanupExpiredStatuses` drops a status: its creation time reads
      as 0 (falsy) or it is at least 24 hours old. */
  predicate Expired(p: Status, now: nat) {
    p.timestamp == 0 || now - p.timestamp >= STATUS_TTL_MS
  }

  /** A status survives exactly when it has a creation time and was created
      less than 24 hours before `now` (or later than `now`). */
  lemma LiveIffRecent(p: Status, now: nat)
    ensures !Expired(p, now) <==> 0 < p.timestamp && now < p.timestamp + STATUS_TTL_MS
  {
  }

  /** Once expired, a status stays expired as the clock advances. */
  lemma ExpiryIsPermanent(p: Status, now: nat, later: nat)
    requires now <= later
    ensures Expired(p, now) ==> Expired(p, later)
  {
  }

  /** The statuses that survive the sweep, in their original order. */
  function Sweep(h: seq<Status>, now: nat): (r: seq<Status>)
    ensures |r| <= |h|
  {
    if h == [] then []
    else if Expired(h[0], now) then Sweep(h[1..], now)
    else [h[0]] + Sweep(h[1..], now)
  }

  /** The sweep keeps exactly the live statuses, in their original order. */
  lemma {:induction false} SweepKeepsExactlyLive(h: seq<Status>, now: nat)
    ensures forall p :: p in Sweep(h, now) <==> p in h && !Expired(p, now)
    ensures forall p :: multiset(Sweep(h, now))[p] == if Expired(p, now) then 0 else multiset(h)[p]
    ensures Subsequence(Sweep(h, now), h)
  {
    if h == [] {
    } else {
      SweepKeepsExactlyLive(h[1..], now);
      assert h == [h[0]] + h[1..];
      assert multiset(h) == multiset([h[0]]) + multiset(h[1..]);
      if !Expired(h[0], now) {
        assert multiset(Sweep(h, now)) == multiset([h[0]]) + multiset(Sweep(h[1..], now));
      }
    }
  }

  /** The sweep of the suffix from `i` decides `h[i]` and sweeps the rest. */
  lemma SweepFrom(h: seq<Status>, i: nat, now: nat)
    requires i < |h|
    ensures Sweep(h[i..], now) ==
      if Expired(h[i], now) then Sweep(h[i + 1..], now) else [h[i]] + Sweep(h[i + 1..], now)
  {
    assert h[i..][1..] == h[i + 1..];
  }

  /** One backward step of the in-place sweep: entry `i` is spliced out of
      the partly swept history exactly when it has expired. */
  lemma SweepStepBack(h: seq<Status>, i: nat, now: nat)
    requires i < |h|
    ensures var s := h[..i + 1] + Sweep(h[i + 1..], now);
      && i < |s| && s[i] == h[i]
      && h[..i] + Sweep(h[i..], now) == if Expired(h[i], now) then s[..i] + s[i + 1..] else s
  {
    SweepFrom(h, i, now);
    assert h[..i + 1] == h[..i] + [h[i]];
    DropMiddle(h[..i], h[i], Sweep(h[i + 1..], now));
  }

  /** A history with nothing expired survives the sweep unchanged. */
  lemma {:induction false} SweepKeepsLive(h: seq<Status>, now: nat)
    requires forall i :: 0 <= i < |h| ==> !Expired(h[i], now)
    ensures Sweep(h, now) == h
  {
    if h != [] {
      SweepKeepsLive(h[1..], now);
    }
  }

  /** Sweeping twice at the same time is sweeping once. */
  lemma SweepIdempotent(h: seq<Status>, now: nat)
    ensures Sweep(Sweep(h, now), now) == Sweep(h, now)
  {
    var r := Sweep(h, now);
    SweepKeepsExactlyLive(h, now);
    assert forall i :: 0 <= i < |r| ==> r[i] in r;
    SweepKeepsLive(r, now);
  }

  /** `h.findIndex(p => p.id === id)`: the first position holding `id`, or -1. */
  function FindIndex<B>(h: seq<Post<B>>, id: string): (i: int)
    ensures -1 <= i < |h|
    ensures i >= 0 ==> h[i].id == id && forall j :: 0 <= j < i ==> h[j].id != id
    ensures i == -1 <==> forall j :: 0 <= j < |h| ==> h[j].id != id
  {
    if h == [] then -1
    else if h[0].id == id then 0
    else
      var k := FindIndex(h[1..], id);
      if k == -1 then -1 else k + 1
  }

  /** The owner-only delete of `deleteStatus` and `deleteReel`: the first
      post carrying `id` is spliced out when `requester` owns it; otherwise
      nothing is removed (None). */
  function DeleteOwned<B>(h: seq<Post<B>>, id: string, requester: string): (r: Option<seq<Post<B>>>)
    ensures var i := FindIndex(h, id); r.Some? <==> i >= 0 && h[i].userId == requester
    ensures var i := FindIndex(h, id); r.Some? ==> r.value == h[..i] + h[i + 1..]
    ensures r.Some? ==> |r.value| == |h| - 1
    ensures (forall i :: 0 <= i < |h| && h[i].id == id ==> h[i].userId != requester) ==> r.None?
  {
    var i := FindIndex(h, id);
    if i != -1 && h[i].userId == requester then
      Some(h[..i] + h[i + 1..])
    else
      None
  }

  /** What an owner-only delete leaves keeps its order. */
  lemma DeleteOwnedKeepsOrder<B>(h: seq<Post<B>>, id: string, requester: string)
    ensures DeleteOwned(h, id, requester).Some? ==> Subsequence(DeleteOwned(h, id, requester).value, h)
  {
    var i := FindIndex(h, id);
    if i != -1 && h[i].userId == requester {
      RemoveAtIsSubsequence(h, i);
    }
  }
}
