/** The history of an account, fetched backwards page by page from a server that fails now and then
    and lists each page in any order. */
module TxFetcher {
  import opened Wrappers
  import opened ByteCodec
  import opened Sorting

  type uint64 = x: int | 0 <= x < 0x1_0000_0000_0000_0000

  datatype Tx = Tx(lt: uint64, hash: Bytes, prevLt: uint64, prevHash: Bytes)

  /** What the server answers, or an error; and how many transactions the reader takes before the
      context is cancelled. */
  datatype Reply = Page(txs: seq<Tx>, taken: nat) | NoTransactionsFound | ServerError

  datatype Outcome = NoMore | Cancelled | OutOfTicks

  // ----- the comparator -----

  /** Go's `int(b.LT - a.LT)` on unsigned operands. */
  function Compare(a: Tx, b: Tx): int64 {
    Int64(U64(b.lt - a.lt))
  }

  function NewestFirst(): (Tx, Tx) -> bool {
    (a: Tx, b: Tx) => Compare(a, b) <= 0
  }

  lemma U64OfDifference(a: uint64, b: uint64)
    ensures U64(b - a) == if b >= a then b - a else b - a + TWO_64
  {
    if b < a {
      assert b - a == -1 * TWO_64 + (b - a + TWO_64);
    }
  }

  lemma CompareValue(a: Tx, b: Tx)
    ensures var d := b.lt - a.lt;
            Compare(a, b) == if d < -TWO_63 then d + TWO_64 else if d < TWO_63 then d else d - TWO_64
  {
    U64OfDifference(a.lt, b.lt);
    var u := U64(b.lt - a.lt);
    if u >= TWO_63 {
      assert U64(u) == u;
    }
  }

  /** The wrapping comparator has the right sign exactly up to a distance of 2^63. */
  lemma CompareExact(a: Tx, b: Tx)
    ensures (Compare(a, b) < 0 <==> b.lt < a.lt) && (Compare(a, b) > 0 <==> b.lt > a.lt)
            <==> -TWO_63 <= b.lt - a.lt < TWO_63
  {
    CompareValue(a, b);
  }

  // ----- the history -----

  /** Oldest first, each linked to the one before it; what one page can hold is within the reach of the
      comparator. */
  ghost predicate History(chain: seq<Tx>, limit: nat) {
    && chain != []
    && (forall i, j | 0 <= i < j < |chain| :: chain[i].lt < chain[j].lt)
    && (forall k: nat | k < |chain| :: WithinReach(chain, limit, k))
    && (forall i | 0 < i < |chain| :: chain[i].prevLt == chain[i - 1].lt && chain[i].prevHash == chain[i - 1].hash)
    && chain[0].prevLt < chain[0].lt
  }

  ghost predicate WithinReach(chain: seq<Tx>, limit: nat, k: nat)
    requires k < |chain|
  {
    forall i | 0 <= i < k && k - i < limit :: chain[k].lt < chain[i].lt + TWO_63
  }

  ghost predicate Known(chain: seq<Tx>, lt: uint64, hash: Bytes) {
    exists k | 0 <= k < |chain| :: chain[k].lt == lt && chain[k].hash == hash
  }

  /** `txs` lists the `|txs|` transactions that end at position `k`, each once, in any order. */
  ghost predicate EndsAt(chain: seq<Tx>, txs: seq<Tx>, k: nat)
    requires k < |chain|
  {
    && 0 < |txs| <= k + 1 && Distinct(txs)
    && Elements(txs) == Elements(chain[k + 1 - |txs|..k + 1])
  }

  /** A reply to a query at `(lt, hash)`: an error, or a page that ends there, or, if nothing is
      there, no transactions. */
  ghost predicate Honest(chain: seq<Tx>, limit: nat, lt: uint64, hash: Bytes, reply: Reply) {
    match reply
    case ServerError => true
    case NoTransactionsFound => !Known(chain, lt, hash)
    case Page(txs, _) =>
      if txs == [] then !Known(chain, lt, hash)
      else |txs| <= limit && exists k: nat | k < |chain| :: chain[k].lt == lt && chain[k].hash == hash && EndsAt(chain, txs, k)
  }

  /** By tick, logical time and hash. */
  type Server = (nat, uint64, Bytes) -> Reply

  ghost predicate HonestServer(chain: seq<Tx>, limit: nat, server: Server) {
    forall tick: nat, lt: uint64, hash: Bytes :: Honest(chain, limit, lt, hash, server(tick, lt, hash))
  }

  /** The `n` newest, newest first. */
  ghost function Newest(chain: seq<Tx>, n: nat): seq<Tx>
    requires n <= |chain|
  {
    seq(n, i requires 0 <= i < n => chain[|chain| - 1 - i])
  }

  /** After `n` transactions the next query is for the one before them, or past the oldest. */
  ghost predicate Cursor(chain: seq<Tx>, n: nat, lt: uint64, hash: Bytes)
    requires n <= |chain|
  {
    if n < |chain| then lt == chain[|chain| - 1 - n].lt && hash == chain[|chain| - 1 - n].hash
    else chain != [] && lt == chain[0].prevLt && hash == chain[0].prevHash
  }

  /** The `m` transactions that follow the first `n`, going backwards. */
  ghost predicate Stretch(chain: seq<Tx>, n: nat, m: nat, part: set<Tx>) {
    0 < m && n + m <= |chain| && part == Elements(chain[|chain| - n - m..|chain| - n])
  }

  ghost predicate Backwards(chain: seq<Tx>, n: nat, page: seq<Tx>) {
    n + |page| <= |chain| && forall i | 0 <= i < |page| :: page[i] == chain[|chain| - 1 - n - i]
  }

  lemma StretchHas(chain: seq<Tx>, n: nat, m: nat, part: set<Tx>, x: Tx) returns (i: nat)
    requires Stretch(chain, n, m, part) && x in part
    ensures i < m && chain[|chain| - 1 - n - i] == x
  {
    var lo, hi := |chain| - n - m, |chain| - n;
    var j :| 0 <= j < m && chain[lo..hi][j] == x;
    i := m - 1 - j;
  }

  lemma InStretch(chain: seq<Tx>, n: nat, m: nat, part: set<Tx>, i: nat)
    requires Stretch(chain, n, m, part) && i < m
    ensures chain[|chain| - 1 - n - i] in part
  {
    var lo, hi := |chain| - n - m, |chain| - n;
    assert chain[lo..hi][m - 1 - i] == chain[|chain| - 1 - n - i];
  }

  /** On one page the comparator orders by logical time. */
  lemma PageOrder(chain: seq<Tx>, limit: nat, n: nat, m: nat, part: set<Tx>, a: Tx, b: Tx)
    requires History(chain, limit) && Stretch(chain, n, m, part) && m <= limit && a in part && b in part
    ensures NewestFirst()(a, b) <==> a.lt >= b.lt
    ensures a.lt == b.lt ==> a == b
  {
    var i := StretchHas(chain, n, m, part, a);
    var j := StretchHas(chain, n, m, part, b);
    var p, q := |chain| - 1 - n - i, |chain| - 1 - n - j;
    assert WithinReach(chain, limit, p) && WithinReach(chain, limit, q);
    CompareExact(a, b);
  }

  lemma PageTotal(chain: seq<Tx>, limit: nat, n: nat, m: nat, part: set<Tx>)
    requires History(chain, limit) && Stretch(chain, n, m, part) && m <= limit
    ensures TotalOn(NewestFirst(), part)
  {
    var le := NewestFirst();
    forall a, b | a in part && b in part ensures (le(a, b) <==> a.lt >= b.lt) && (a.lt == b.lt ==> a == b) {
      PageOrder(chain, limit, n, m, part, a, b);
    }
    OrderedByTime(le, part);
  }

  lemma OrderedByTime(le: (Tx, Tx) -> bool, part: set<Tx>)
    requires forall a, b | a in part && b in part :: (le(a, b) <==> a.lt >= b.lt) && (a.lt == b.lt ==> a == b)
    ensures TotalOn(le, part)
  {
  }

  lemma ReversedIsSort(chain: seq<Tx>, limit: nat, n: nat, part: set<Tx>, page: seq<Tx>)
    requires History(chain, limit) && Stretch(chain, n, |page|, part) && |page| <= limit && Backwards(chain, n, page)
    ensures IsSortOf(page, part, NewestFirst())
  {
    forall i | 0 <= i < |page| ensures page[i] in part {
      InStretch(chain, n, |page|, part, i);
    }
    forall x | x in part ensures x in page {
      var i := StretchHas(chain, n, |page|, part, x);
      assert page[i] == x;
    }
    forall i, j | 0 <= i < j < |page| ensures NewestFirst()(page[i], page[j]) && page[i] != page[j] {
      assert page[j].lt < page[i].lt;
      PageOrder(chain, limit, n, |page|, part, page[i], page[j]);
    }
    MakeSort(page, part, NewestFirst());
  }

  /** What sorting does for a page on which the comparator is an order. */
  ghost predicate SortsPage(page: set<Tx>, sorted: seq<Tx>) {
    TotalOn(NewestFirst(), page) ==> IsSortOf(sorted, page, NewestFirst())
  }

  lemma SortedIsReversed(chain: seq<Tx>, limit: nat, n: nat, part: set<Tx>, sorted: seq<Tx>)
    requires History(chain, limit) && Stretch(chain, n, |sorted|, part) && |sorted| <= limit && SortsPage(part, sorted)
    ensures Backwards(chain, n, sorted)
  {
    var page := seq(|sorted|, i requires 0 <= i < |sorted| => chain[|chain| - 1 - n - i]);
    PageTotal(chain, limit, n, |sorted|, part);
    ReversedIsSort(chain, limit, n, part, page);
    SortUnique(sorted, page, part, NewestFirst());
  }

  /** Where an honest page ends. */
  lemma PageEnd(chain: seq<Tx>, n: nat, lt: uint64, hash: Bytes, txs: seq<Tx>, limit: nat, taken: nat)
    requires History(chain, limit) && n <= |chain| && Cursor(chain, n, lt, hash)
    requires txs != [] && Honest(chain, limit, lt, hash, Page(txs, taken))
    ensures |txs| <= limit && Stretch(chain, n, |txs|, Elements(txs))
  {
    var k: nat :| k < |chain| && chain[k].lt == lt && chain[k].hash == hash && EndsAt(chain, txs, k);
    CursorAt(chain, limit, n, lt, hash, k);
    assert k + 1 - |txs| == |chain| - n - |txs| && k + 1 == |chain| - n;
  }

  /** A page that ends at the cursor, sorted, is the next stretch of the history. */
  lemma SortedPage(chain: seq<Tx>, n: nat, lt: uint64, hash: Bytes, txs: seq<Tx>, limit: nat, taken: nat, sorted: seq<Tx>)
    requires History(chain, limit) && n <= |chain| && Cursor(chain, n, lt, hash)
    requires txs != [] && Honest(chain, limit, lt, hash, Page(txs, taken)) && |sorted| == |txs|
    requires SortsPage(Elements(txs), sorted)
    ensures 0 < |sorted| && Backwards(chain, n, sorted)
  {
    PageEnd(chain, n, lt, hash, txs, limit, taken);
    SortedIsReversed(chain, limit, n, Elements(txs), sorted);
  }

  lemma CursorAt(chain: seq<Tx>, limit: nat, n: nat, lt: uint64, hash: Bytes, k: nat)
    requires History(chain, limit) && n <= |chain| && Cursor(chain, n, lt, hash)
    requires k < |chain| && chain[k].lt == lt && chain[k].hash == hash
    ensures n < |chain| && k == |chain| - 1 - n
  {
    assert chain[0].lt <= chain[k].lt;
  }

  lemma CursorKnown(chain: seq<Tx>, n: nat, lt: uint64, hash: Bytes)
    requires n < |chain| && Cursor(chain, n, lt, hash)
    ensures Known(chain, lt, hash)
  {
  }

  lemma NothingMore(chain: seq<Tx>, n: nat, lt: uint64, hash: Bytes)
    requires n <= |chain| && Cursor(chain, n, lt, hash) && !Known(chain, lt, hash)
    ensures n == |chain|
  {
    if n < |chain| {
      CursorKnown(chain, n, lt, hash);
    }
  }

  lemma NewestGrows(chain: seq<Tx>, before: seq<Tx>, after: seq<Tx>)
    requires |before| <= |after| <= |chain| && before == Newest(chain, |before|) && after[..|before|] == before
    requires forall i | |before| <= i < |after| :: after[i] == chain[|chain| - 1 - i]
    ensures after == Newest(chain, |after|)
  {
    forall i | 0 <= i < |after| ensures after[i] == chain[|chain| - 1 - i] {
      if i < |before| {
        assert after[i] == after[..|before|][i];
      }
    }
  }

  lemma CursorMoves(chain: seq<Tx>, limit: nat, n: nat, m: nat)
    requires History(chain, limit) && 0 < m && n + m <= |chain|
    ensures Cursor(chain, n + m, chain[|chain| - n - m].prevLt, chain[|chain| - n - m].prevHash)
  {
  }

  class TxFetcher {
    const limit: nat
    var lt: uint64
    var hash: Bytes
    var out: seq<Tx>

    constructor (lt: uint64, hash: Bytes, limit: nat)
      ensures this.lt == lt && this.hash == hash && out == []
      ensures this.limit == if limit == 0 then 16 else limit
    {
      this.lt := lt;
      this.hash := hash;
      this.limit := if limit == 0 then 16 else limit;
      out := [];
    }

    /** `None` is a transient failure, no transactions are the end. */
    method Fetch(reply: Reply) returns (r: Option<seq<Tx>>)
      ensures r == match reply
                   case Page(txs, _) => Some(txs)
                   case NoTransactionsFound => Some([])
                   case ServerError => None
    {
      match reply
      case ServerError => return None;
      case NoTransactionsFound => return Some([]);
      case Page(txs, _) => return Some(txs);
    }

    /** The reader takes the transactions one by one until it is cancelled. */
    method Emit(txs: seq<Tx>, taken: nat) returns (ok: bool)
      modifies this`out
      ensures ok <==> taken >= |txs|
      ensures out == old(out) + txs[..if taken < |txs| then taken else |txs|]
    {
      for i := 0 to |txs|
        invariant i <= taken && out == old(out) + txs[..i]
      {
        if i == taken {
          return false;
        }
        out := out + [txs[i]];
        assert txs[..i + 1] == txs[..i] + [txs[i]];
      }
      return true;
    }

    /** A page: sort it, emit it, move the cursor to what comes before it. */
    method TakePage(txs: seq<Tx>, taken: nat, ghost chain: seq<Tx>, ghost n: nat) returns (ok: bool)
      requires txs != []
      modifies this`lt, this`hash, this`out
      ensures |old(out)| <= |out| && out[..|old(out)|] == old(out)
      ensures History(chain, limit) && n <= |chain| && Cursor(chain, n, old(lt), old(hash))
              && Honest(chain, limit, old(lt), old(hash), Page(txs, taken)) ==>
                Advanced(chain, n, old(out), out, lt, hash, ok)
      ensures ok ==> |out| > |old(out)|
    {
      var sorted := SortPage(txs);
      ghost var applies := History(chain, limit) && n <= |chain| && Cursor(chain, n, lt, hash)
                           && Honest(chain, limit, lt, hash, Page(txs, taken));
      if applies {
        SortedPage(chain, n, lt, hash, txs, limit, taken, sorted);
      }
      ok := Emit(sorted, taken);
      if !ok {
        return;
      }
      if applies {
        CursorMoves(chain, limit, n, |sorted|);
      }
      lt := sorted[|sorted| - 1].prevLt;
      hash := sorted[|sorted| - 1].prevHash;
    }

    method SortPage(txs: seq<Tx>) returns (sorted: seq<Tx>)
      ensures |sorted| == |txs|
      ensures Distinct(txs) && TotalOn(NewestFirst(), Elements(txs)) ==> IsSortOf(sorted, Elements(txs), NewestFirst())
    {
      sorted := Sort(txs, NewestFirst());
      assert |sorted| == |multiset(sorted)| == |multiset(txs)| == |txs|;
    }

    /** One tick. `n` is how many of the history came before. */
    method Tick(reply: Reply, ghost chain: seq<Tx>, ghost n: nat) returns (r: Option<Outcome>)
      modifies this`lt, this`hash, this`out
      ensures |old(out)| <= |out| && out[..|old(out)|] == old(out)
      ensures History(chain, limit) && n <= |chain| && Cursor(chain, n, old(lt), old(hash))
              && Honest(chain, limit, old(lt), old(hash), reply) ==>
                && Advanced(chain, n, old(out), out, lt, hash, r == None)
                && (r == Some(NoMore) ==> n == |chain|)
      ensures r == None ==> reply.ServerError? || |out| > |old(out)|
      ensures r != Some(OutOfTicks)
    {
      var txs := Fetch(reply);
      if txs == None {
        return None;
      }
      if |txs.value| == 0 {
        if n <= |chain| && Cursor(chain, n, lt, hash) && !Known(chain, lt, hash) {
          NothingMore(chain, n, lt, hash);
        }
        return Some(NoMore);
      }
      var ok := TakePage(txs.value, reply.taken, chain, n);
      return if ok then None else Some(Cancelled);
    }

    /** The fetch loop from the newest transaction of a history: it emits the history backwards from
        there, nothing twice and nothing skipped, and all of it if it ends by itself. Every tick that
        does not end it emits something, or is one of the failures. */
    method Work(server: Server, ticks: nat, ghost chain: seq<Tx>) returns (r: Outcome, ghost failures: nat)
      modifies this`lt, this`hash, this`out
      ensures History(chain, limit) && HonestServer(chain, limit, server) && old(out) == []
              && old(lt) == chain[|chain| - 1].lt && old(hash) == chain[|chain| - 1].hash ==>
                && |out| <= |chain| && out == Newest(chain, |out|)
                && (r.NoMore? ==> |out| == |chain|)
                && (r.OutOfTicks? ==> ticks <= failures + |out|)
      ensures failures <= ticks
    {
      ghost var applies := History(chain, limit) && HonestServer(chain, limit, server) && out == []
                           && lt == chain[|chain| - 1].lt && hash == chain[|chain| - 1].hash;
      failures := 0;
      for tick := 0 to ticks
        invariant failures <= tick
        invariant applies ==> |out| <= |chain| && out == Newest(chain, |out|) && Cursor(chain, |out|, lt, hash)
                              && tick <= failures + |out|
      {
        var reply := server(tick, lt, hash);
        if applies {
          assert Honest(chain, limit, lt, hash, reply);
        }
        ghost var before := out;
        var end := Tick(reply, chain, |out|);
        if applies {
          NewestGrows(chain, before, out);
        }
        if end.Some? {
          return end.value, failures;
        }
        if reply.ServerError? {
          failures := failures + 1;
        }
      }
      return OutOfTicks, failures;
    }
  }

  /** The output grew by the next stretch of the history; if the loop goes on, the cursor is past it. */
  ghost predicate Advanced(chain: seq<Tx>, n: nat, before: seq<Tx>, after: seq<Tx>, lt: uint64, hash: Bytes, goesOn: bool)
    requires n <= |chain| && |before| <= |after|
  {
    var m := |after| - |before|;
    && n + m <= |chain|
    && (forall i | |before| <= i < |after| :: after[i] == chain[|chain| - 1 - n - (i - |before|)])
    && (goesOn ==> Cursor(chain, n + m, lt, hash))
  }
}
