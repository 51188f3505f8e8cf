/** The LRU certificate cache of DeepSeerLib/src/Tls/CertCache.cpp: a list of nodes, a map of
    iterators into it and OpenSSL reference counts, against a sequence of entries. */
module CertCaches {
  import opened Wrappers

  type Ctx = nat

  datatype Entry = Entry(host: string, ctx: Ctx)

  // ---------------------------------------------------------------- the cache as a sequence, MRU first

  predicate Has(es: seq<Entry>, h: string) { exists i :: 0 <= i < |es| && es[i].host == h }

  predicate Distinct(es: seq<Entry>) { forall i, j :: 0 <= i < j < |es| ==> es[i].host != es[j].host }

  function Without(es: seq<Entry>, h: string): seq<Entry> {
    if es == [] then []
    else if es[0].host == h then Without(es[1..], h)
    else [es[0]] + Without(es[1..], h)
  }

  function Lookup(es: seq<Entry>, h: string): Option<Ctx> {
    if es == [] then None else if es[0].host == h then Some(es[0].ctx) else Lookup(es[1..], h)
  }

  /** A hit promotes the entry, a miss changes nothing. */
  function LruGet(es: seq<Entry>, h: string): seq<Entry> {
    if Lookup(es, h).Some? then [Entry(h, Lookup(es, h).value)] + Without(es, h) else es
  }

  /** An update promotes the entry; an insertion first evicts the last entry of a full cache. */
  function LruPut(es: seq<Entry>, capacity: nat, h: string, ctx: Ctx): seq<Entry>
    requires capacity >= 1
  {
    if Lookup(es, h).Some? then [Entry(h, ctx)] + Without(es, h)
    else [Entry(h, ctx)] + (if |es| >= capacity then es[..|es| - 1] else es)
  }

  datatype Op = Get(host: string) | Put(host: string, ctx: Ctx)

  function Step(es: seq<Entry>, capacity: nat, op: Op): seq<Entry>
    requires capacity >= 1
  {
    match op
    case Get(h) => LruGet(es, h)
    case Put(h, ctx) => LruPut(es, capacity, h, ctx)
  }

  /** The cache after a run of operations on an empty one. */
  function RunOps(capacity: nat, ops: seq<Op>): seq<Entry>
    requires capacity >= 1
  {
    if ops == [] then [] else Step(RunOps(capacity, ops[..|ops| - 1]), capacity, ops[|ops| - 1])
  }

  lemma HasUnfold(es: seq<Entry>, h: string)
    requires es != []
    ensures Has(es, h) <==> es[0].host == h || Has(es[1..], h)
  {
    assert forall i :: 0 < i < |es| ==> es[i] == es[1..][i - 1];
    assert forall i :: 0 <= i < |es| - 1 ==> es[1..][i] == es[i + 1];
  }

  lemma {:induction false} LookupHas(es: seq<Entry>, h: string)
    ensures Lookup(es, h).Some? <==> Has(es, h)
    ensures Lookup(es, h).Some? ==> Entry(h, Lookup(es, h).value) in es
  {
    if es != [] {
      HasUnfold(es, h);
      if es[0].host != h { LookupHas(es[1..], h); }
    }
  }

  lemma {:induction false} WithoutAbsent(es: seq<Entry>, h: string)
    requires !Has(es, h)
    ensures Without(es, h) == es
  {
    if es != [] {
      HasUnfold(es, h);
      WithoutAbsent(es[1..], h);
    }
  }

  /** In a list of distinct hostnames, dropping the k-th one is cutting it out. */
  lemma {:induction false} WithoutIsCut(es: seq<Entry>, k: nat)
    requires Distinct(es) && k < |es|
    ensures Without(es, es[k].host) == es[..k] + es[k + 1..]
    ensures Lookup(es, es[k].host) == Some(es[k].ctx)
  {
    var h := es[k].host;
    if k == 0 {
      assert forall i :: 0 <= i < |es| - 1 ==> es[1..][i] == es[i + 1];
      WithoutAbsent(es[1..], h);
    } else {
      WithoutIsCut(es[1..], k - 1);
      assert es[1..][k - 1] == es[k];
      assert es[..k] + es[k + 1..] == [es[0]] + (es[1..][..k - 1] + es[1..][k..]);
    }
  }

  /** Putting an entry in front of the others keeps the hostnames distinct. */
  lemma PromoteFacts(es: seq<Entry>, h: string, ctx: Ctx)
    requires Distinct(es) && Has(es, h)
    ensures var p := [Entry(h, ctx)] + Without(es, h); Distinct(p) && |p| == |es|
  {
    var k :| 0 <= k < |es| && es[k].host == h;
    WithoutIsCut(es, k);
    var w := es[..k] + es[k + 1..];
    assert forall i :: 0 <= i < |w| ==> w[i] == es[if i < k then i else i + 1];
  }

  /** Every reachable cache holds distinct hostnames, at most `capacity` of them. */
  lemma {:induction false} RunBounded(capacity: nat, ops: seq<Op>)
    requires capacity >= 1
    ensures Distinct(RunOps(capacity, ops)) && |RunOps(capacity, ops)| <= capacity
  {
    if ops != [] {
      var es, op := RunOps(capacity, ops[..|ops| - 1]), ops[|ops| - 1];
      RunBounded(capacity, ops[..|ops| - 1]);
      LookupHas(es, op.host);
      if Has(es, op.host) {
        PromoteFacts(es, op.host, if op.Put? then op.ctx else Lookup(es, op.host).value);
      }
    }
  }

  // ---------------------------------------------------------------- what is cached, from the operations alone

  /** When h was last named, -1 if never. */
  function LastMention(ops: seq<Op>, h: string): int {
    if ops == [] then -1
    else if ops[|ops| - 1].host == h then |ops| - 1
    else LastMention(ops[..|ops| - 1], h)
  }

  /** What was last put under h. */
  function LastPut(ops: seq<Op>, h: string): Option<Ctx> {
    if ops == [] then None
    else
      var op := ops[|ops| - 1];
      if op.Put? && op.host == h then Some(op.ctx) else LastPut(ops[..|ops| - 1], h)
  }

  lemma {:induction false} MentionBefore(ops: seq<Op>, h: string)
    ensures LastMention(ops, h) < |ops|
  {
    if ops != [] { MentionBefore(ops[..|ops| - 1], h); }
  }

  /** Entries are in the order of their last mention, latest first, and hold what was last put. */
  predicate Recent(es: seq<Entry>, ops: seq<Op>) {
    && (forall i, j :: 0 <= i < j < |es| ==> LastMention(ops, es[i].host) > LastMention(ops, es[j].host))
    && (forall i :: 0 <= i < |es| ==> LastPut(ops, es[i].host) == Some(es[i].ctx))
  }

  lemma OtherHost(ops: seq<Op>, op: Op, h: string)
    requires h != op.host
    ensures LastMention(ops + [op], h) == LastMention(ops, h) && LastPut(ops + [op], h) == LastPut(ops, h)
  {
    assert (ops + [op])[..|ops|] == ops;
  }

  /** The same entries after an operation on another host. */
  lemma RecentOther(es: seq<Entry>, ops: seq<Op>, op: Op)
    requires Recent(es, ops) && !Has(es, op.host)
    ensures Recent(es, ops + [op])
  {
    forall i | 0 <= i < |es|
      ensures LastMention(ops + [op], es[i].host) == LastMention(ops, es[i].host)
      ensures LastPut(ops + [op], es[i].host) == LastPut(ops, es[i].host)
    {
      OtherHost(ops, op, es[i].host);
    }
  }

  lemma RecentCut(es: seq<Entry>, k: nat, ops: seq<Op>)
    requires Recent(es, ops) && k < |es|
    ensures Recent(es[..k] + es[k + 1..], ops)
  {
    var rest := es[..k] + es[k + 1..];
    forall i | 0 <= i < |rest| ensures rest[i] == es[if i < k then i else i + 1] { }
  }

  /** Naming an entry puts it in front. */
  lemma RecentFront(rest: seq<Entry>, ops: seq<Op>, op: Op, ctx: Ctx)
    requires Recent(rest, ops + [op]) && !Has(rest, op.host) && LastPut(ops + [op], op.host) == Some(ctx)
    ensures Recent([Entry(op.host, ctx)] + rest, ops + [op])
  {
    var next := ops + [op];
    forall i | 0 <= i < |rest| ensures LastMention(next, rest[i].host) < LastMention(next, op.host) {
      assert next[..|ops|] == ops;
      MentionBefore(ops, rest[i].host);
    }
  }

  lemma CutHasNot(es: seq<Entry>, k: nat)
    requires Distinct(es) && k < |es|
    ensures !Has(es[..k] + es[k + 1..], es[k].host)
  {
    var rest := es[..k] + es[k + 1..];
    assert forall i :: 0 <= i < |rest| ==> rest[i] == es[if i < k then i else i + 1];
  }

  lemma StepRecent(es: seq<Entry>, capacity: nat, ops: seq<Op>, op: Op)
    requires capacity >= 1 && Distinct(es) && Recent(es, ops)
    ensures Recent(Step(es, capacity, op), ops + [op])
  {
    var next := ops + [op];
    assert next[..|ops|] == ops;
    LookupHas(es, op.host);
    if Has(es, op.host) {
      var k :| 0 <= k < |es| && es[k].host == op.host;
      WithoutIsCut(es, k);
      CutHasNot(es, k);
      RecentCut(es, k, ops);
      RecentOther(Without(es, op.host), ops, op);
      RecentFront(Without(es, op.host), ops, op, if op.Put? then op.ctx else es[k].ctx);
    } else if op.Get? {
      RecentOther(es, ops, op);
    } else {
      var rest := if |es| >= capacity then es[..|es| - 1] else es;
      RecentOther(rest, ops, op);
      RecentFront(rest, ops, op, op.ctx);
    }
  }

  /** Over any run the entries are in the order of their last mention, hits included, and hold the
      context last put under their hostname. */
  lemma {:induction false} RunRecent(capacity: nat, ops: seq<Op>)
    requires capacity >= 1
    ensures Recent(RunOps(capacity, ops), ops)
  {
    if ops != [] {
      var before := ops[..|ops| - 1];
      RunRecent(capacity, before);
      RunBounded(capacity, before);
      StepRecent(RunOps(capacity, before), capacity, before, ops[|ops| - 1]);
      assert ops == before + [ops[|ops| - 1]];
    }
  }

  /** A hit returns what was last put under the hostname. */
  lemma HitIsLastPut(capacity: nat, ops: seq<Op>, h: string)
    requires capacity >= 1
    ensures Lookup(RunOps(capacity, ops), h).Some? <==> Has(RunOps(capacity, ops), h)
    ensures Lookup(RunOps(capacity, ops), h).Some? ==> Lookup(RunOps(capacity, ops), h) == LastPut(ops, h)
  {
    var es := RunOps(capacity, ops);
    RunRecent(capacity, ops);
    LookupHas(es, h);
    if Lookup(es, h).Some? {
      var i :| 0 <= i < |es| && es[i] == Entry(h, Lookup(es, h).value);
    }
  }

  /** The entry that has gone longest without being named. */
  predicate Oldest(es: seq<Entry>, ops: seq<Op>, h: string) {
    Has(es, h) && forall i :: 0 <= i < |es| ==> LastMention(ops, es[i].host) >= LastMention(ops, h)
  }

  /** Which hostnames an operation leaves: a put adds its own, and if that is new and the cache is full,
      exactly the one that has gone longest without being named goes; a get changes none. */
  lemma WhoStays(capacity: nat, ops: seq<Op>, op: Op, h: string)
    requires capacity >= 1
    ensures var es := RunOps(capacity, ops);
            Has(RunOps(capacity, ops + [op]), h) <==>
            || (op.Put? && op.host == h)
            || (Has(es, h) && !(op.Put? && !Has(es, op.host) && |es| >= capacity && Oldest(es, ops, h)))
  {
    var es := RunOps(capacity, ops);
    assert (ops + [op])[..|ops|] == ops;
    RunBounded(capacity, ops);
    RunRecent(capacity, ops);
    LookupHas(es, op.host);
    if Has(es, op.host) {
      var k :| 0 <= k < |es| && es[k].host == op.host;
      WithoutIsCut(es, k);
      CutHas(es, k, h);
      HasUnfold(RunOps(capacity, ops + [op]), h);
    } else if op.Put? {
      HasUnfold(RunOps(capacity, ops + [op]), h);
      if |es| >= capacity { LastIsOldest(es, ops, h); }
    }
  }

  lemma CutHas(es: seq<Entry>, k: nat, h: string)
    requires Distinct(es) && k < |es|
    ensures Has(es[..k] + es[k + 1..], h) <==> Has(es, h) && h != es[k].host
  {
    var rest := es[..k] + es[k + 1..];
    assert forall i :: 0 <= i < |rest| ==> rest[i] == es[if i < k then i else i + 1];
    if Has(es, h) && h != es[k].host {
      var i :| 0 <= i < |es| && es[i].host == h;
      assert rest[if i < k then i else i - 1].host == h;
    }
  }

  lemma LastIsOldest(es: seq<Entry>, ops: seq<Op>, h: string)
    requires es != [] && Distinct(es) && Recent(es, ops)
    ensures Has(es[..|es| - 1], h) <==> Has(es, h) && !Oldest(es, ops, h)
  {
    var n := |es| - 1;
    if Has(es, h) {
      var i :| 0 <= i < |es| && es[i].host == h;
      if i < n {
        assert es[..n][i].host == h;
        assert LastMention(ops, es[n].host) < LastMention(ops, h);
      }
    }
  }

  // ---------------------------------------------------------------- inclusion

  /** s is l with some entries left out. */
  predicate Sub(s: seq<Entry>, l: seq<Entry>)
    decreases |l|
  {
    s == [] || (l != [] && (if s[0] == l[0] then Sub(s[1..], l[1..]) || Sub(s, l[1..]) else Sub(s, l[1..])))
  }

  lemma {:induction false} SubSelf(s: seq<Entry>)
    ensures Sub(s, s)
  {
    if s != [] { SubSelf(s[1..]); }
  }

  lemma {:induction false} SubMember(s: seq<Entry>, l: seq<Entry>, e: Entry)
    requires Sub(s, l) && e in s
    ensures e in l
    decreases |l|
  {
    if s[0] == l[0] && Sub(s[1..], l[1..]) {
      if e != s[0] { SubMember(s[1..], l[1..], e); }
    } else {
      SubMember(s, l[1..], e);
    }
  }

  lemma {:induction false} SubWithout(s: seq<Entry>, l: seq<Entry>, h: string)
    requires Sub(s, l)
    ensures Sub(Without(s, h), Without(l, h))
    decreases |l|
  {
    if s != [] {
      if s[0] == l[0] && Sub(s[1..], l[1..]) {
        SubWithout(s[1..], l[1..], h);
      } else {
        SubWithout(s, l[1..], h);
        SubCons(Without(s, h), l[0], Without(l[1..], h));
      }
    }
  }

  lemma SubCons(s: seq<Entry>, e: Entry, l: seq<Entry>)
    requires Sub(s, l)
    ensures Sub(s, [e] + l)
  {
    assert ([e] + l)[1..] == l;
  }

  lemma SubBoth(s: seq<Entry>, l: seq<Entry>, e: Entry)
    requires Sub(s, l)
    ensures Sub([e] + s, [e] + l)
  {
    assert ([e] + s)[1..] == s && ([e] + l)[1..] == l;
  }

  lemma {:induction false} SubInit(s: seq<Entry>, l: seq<Entry>)
    requires s != [] && Sub(s, l)
    ensures Sub(s[..|s| - 1], l) && l != [] && Sub(s[..|s| - 1], l[..|l| - 1])
    decreases |l|
  {
    var s', l' := s[..|s| - 1], l[..|l| - 1];
    if s' != [] {
      assert s'[1..] == s[1..][..|s| - 2];
      if s[0] == l[0] && Sub(s[1..], l[1..]) {
        SubInit(s[1..], l[1..]);
        assert l'[1..] == l[1..][..|l| - 2];
      } else {
        SubInit(s, l[1..]);
        assert l'[1..] == l[1..][..|l| - 2];
      }
    }
  }

  /** What the smaller and the larger cache keep between operations: the smaller is a subsequence of
      the larger, and as long as it has never been full the two are equal. */
  predicate Included(s: seq<Entry>, n: nat, l: seq<Entry>) {
    Distinct(s) && Distinct(l) && Sub(s, l) && (|s| < n ==> s == l)
  }

  lemma SubLookup(s: seq<Entry>, l: seq<Entry>, h: string)
    requires Distinct(l) && Sub(s, l) && Lookup(s, h).Some?
    ensures Lookup(l, h) == Lookup(s, h)
  {
    LookupHas(s, h);
    var e := Entry(h, Lookup(s, h).value);
    SubMember(s, l, e);
    var k :| 0 <= k < |l| && l[k] == e;
    WithoutIsCut(l, k);
  }

  lemma PromoteIncluded(s: seq<Entry>, n: nat, l: seq<Entry>, h: string, ctx: Ctx)
    requires Included(s, n, l) && Lookup(s, h).Some?
    ensures Lookup(l, h).Some?
    ensures Included([Entry(h, ctx)] + Without(s, h), n, [Entry(h, ctx)] + Without(l, h))
  {
    SubLookup(s, l, h);
    LookupHas(s, h);
    LookupHas(l, h);
    PromoteFacts(s, h, ctx);
    PromoteFacts(l, h, ctx);
    SubWithout(s, l, h);
    SubBoth(Without(s, h), Without(l, h), Entry(h, ctx));
  }

  lemma GetIncluded(s: seq<Entry>, n: nat, l: seq<Entry>, h: string)
    requires Included(s, n, l)
    ensures Included(LruGet(s, h), n, LruGet(l, h))
  {
    LookupHas(s, h);
    LookupHas(l, h);
    if Lookup(s, h).Some? {
      SubLookup(s, l, h);
      PromoteIncluded(s, n, l, h, Lookup(s, h).value);
    } else if Lookup(l, h).Some? {
      PromoteFacts(l, h, Lookup(l, h).value);
      WithoutAbsent(s, h);
      SubWithout(s, l, h);
      SubCons(s, Entry(h, Lookup(l, h).value), Without(l, h));
    }
  }

  lemma InsertDistinct(es: seq<Entry>, capacity: nat, h: string, ctx: Ctx)
    requires capacity >= 1 && Distinct(es) && !Has(es, h)
    ensures Distinct(LruPut(es, capacity, h, ctx))
  {
    LookupHas(es, h);
    var kept := if |es| >= capacity then es[..|es| - 1] else es;
    assert forall i :: 0 <= i < |kept| ==> kept[i] == es[i];
  }

  /** The smaller cache evicts its last entry while the larger promotes, evicts or just inserts. */
  lemma EvictIncluded(s: seq<Entry>, n: nat, l: seq<Entry>, m: nat, h: string, ctx: Ctx)
    requires 1 <= n <= m && Included(s, n, l) && !Has(s, h) && |s| >= n
    ensures Sub(LruPut(s, n, h, ctx), LruPut(l, m, h, ctx))
  {
    LookupHas(s, h);
    SubInit(s, l);
    var kept := s[..|s| - 1];
    if Lookup(l, h).Some? {
      WithoutAbsent(s, h);
      SubWithout(s, l, h);
      SubInit(s, Without(l, h));
      SubBoth(kept, Without(l, h), Entry(h, ctx));
    } else {
      SubBoth(kept, if |l| >= m then l[..|l| - 1] else l, Entry(h, ctx));
    }
  }

  lemma PutIncluded(s: seq<Entry>, n: nat, l: seq<Entry>, m: nat, h: string, ctx: Ctx)
    requires 1 <= n <= m && Included(s, n, l)
    ensures Included(LruPut(s, n, h, ctx), n, LruPut(l, m, h, ctx))
  {
    LookupHas(s, h);
    LookupHas(l, h);
    if Lookup(s, h).Some? {
      PromoteIncluded(s, n, l, h, ctx);
      return;
    }
    InsertDistinct(s, n, h, ctx);
    if Lookup(l, h).Some? { PromoteFacts(l, h, ctx); } else { InsertDistinct(l, m, h, ctx); }
    if |s| >= n {
      EvictIncluded(s, n, l, m, h, ctx);
    } else {
      SubSelf([Entry(h, ctx)] + s);
    }
  }

  lemma {:induction false} RunIncluded(n: nat, m: nat, ops: seq<Op>)
    requires 1 <= n <= m
    ensures Included(RunOps(n, ops), n, RunOps(m, ops))
  {
    if ops != [] {
      var before, op := ops[..|ops| - 1], ops[|ops| - 1];
      RunIncluded(n, m, before);
      match op
      case Get(h) => GetIncluded(RunOps(n, before), n, RunOps(m, before), h);
      case Put(h, ctx) => PutIncluded(RunOps(n, before), n, RunOps(m, before), m, h, ctx);
    }
  }

  /** LRU inclusion: after the same run of gets and puts, the smaller cache is a subsequence of the
      larger one with equal contexts, so the larger never misses where the smaller hits. */
  lemma LruInclusion(n: nat, m: nat, ops: seq<Op>, h: string)
    requires 1 <= n <= m
    ensures Sub(RunOps(n, ops), RunOps(m, ops))
    ensures Lookup(RunOps(n, ops), h).Some? ==> Lookup(RunOps(m, ops), h) == Lookup(RunOps(n, ops), h)
  {
    RunIncluded(n, m, ops);
    if Lookup(RunOps(n, ops), h).Some? { SubLookup(RunOps(n, ops), RunOps(m, ops), h); }
  }

  // ---------------------------------------------------------------- reference ledger

  function Ctxs(es: seq<Entry>): (cs: seq<Ctx>)
    ensures |cs| == |es|
    ensures forall i :: 0 <= i < |es| ==> cs[i] == es[i].ctx
  {
    seq(|es|, i requires 0 <= i < |es| => es[i].ctx)
  }

  /** The references a list of entries holds. */
  function Bag(es: seq<Entry>): multiset<Ctx> { multiset(Ctxs(es)) }

  lemma BagPush(e: Entry, es: seq<Entry>)
    ensures Bag([e] + es) == multiset{e.ctx} + Bag(es)
  {
    assert Ctxs([e] + es) == [e.ctx] + Ctxs(es);
  }

  lemma BagInit(es: seq<Entry>)
    requires es != []
    ensures Bag(es) == Bag(es[..|es| - 1]) + multiset{es[|es| - 1].ctx}
  {
    assert Ctxs(es) == Ctxs(es[..|es| - 1]) + [es[|es| - 1].ctx];
  }

  lemma BagCut(es: seq<Entry>, k: nat)
    requires k < |es|
    ensures Bag(es) == multiset{es[k].ctx} + Bag(es[..k] + es[k + 1..])
  {
    var cs := Ctxs(es);
    assert cs == cs[..k] + [cs[k]] + cs[k + 1..];
    assert Ctxs(es[..k] + es[k + 1..]) == cs[..k] + cs[k + 1..];
  }

  /** The ledger: each context is held by its outside holders and by the entries that name it. */
  predicate Ledger(refs: multiset<Ctx>, outside: multiset<Ctx>, es: seq<Entry>) {
    refs == outside + Bag(es)
  }

  lemma LedgerMove(refs: multiset<Ctx>, outside: multiset<Ctx>, es: seq<Entry>, k: nat)
    requires Ledger(refs, outside, es) && k < |es|
    ensures Ledger(refs, outside, MoveToFront(es, k))
  {
    BagCut(es, k);
    BagPush(es[k], es[..k] + es[k + 1..]);
  }

  lemma LedgerReplace(refs: multiset<Ctx>, outside: multiset<Ctx>, es: seq<Entry>, k: nat, ctx: Ctx)
    requires Ledger(refs, outside, es) && k < |es| && ctx in outside
    ensures es[k].ctx in refs && ctx in refs - multiset{es[k].ctx}
    ensures Ledger(refs - multiset{es[k].ctx} + multiset{ctx}, outside, es[k := Entry(es[k].host, ctx)])
  {
    var es' := es[k := Entry(es[k].host, ctx)];
    BagCut(es, k);
    BagCut(es', k);
    assert es'[..k] + es'[k + 1..] == es[..k] + es[k + 1..];
  }

  lemma LedgerEvict(refs: multiset<Ctx>, outside: multiset<Ctx>, es: seq<Entry>)
    requires Ledger(refs, outside, es) && es != []
    ensures es[|es| - 1].ctx in refs
    ensures Ledger(refs - multiset{es[|es| - 1].ctx}, outside, es[..|es| - 1])
  {
    BagInit(es);
  }

  lemma LedgerInsert(refs: multiset<Ctx>, outside: multiset<Ctx>, es: seq<Entry>, e: Entry)
    requires Ledger(refs, outside, es) && e.ctx in outside
    ensures e.ctx in refs && Ledger(refs + multiset{e.ctx}, outside, [e] + es)
  {
    BagPush(e, es);
  }

  lemma LedgerFree(refs: multiset<Ctx>, outside: multiset<Ctx>, es: seq<Entry>)
    requires Ledger(refs, outside, es) && es != []
    ensures es[0].ctx in refs && Ledger(refs - multiset{es[0].ctx}, outside, es[1..])
  {
    BagPush(es[0], es[1..]);
    assert es == [es[0]] + es[1..];
  }

  /** SSL_CTX reference counts: how often each context is held, by anyone. */
  class OpenSsl {
    var refs: multiset<Ctx>
    ghost var outside: multiset<Ctx>   // references held by anyone but the cache

    constructor ()
      ensures refs == outside == multiset{}
    {
      refs, outside := multiset{}, multiset{};
    }

    method UpRef(c: Ctx)
      requires c in refs
      modifies `refs
      ensures refs == old(refs) + multiset{c}
    {
      refs := refs + multiset{c};
    }

    method Free(c: Ctx)
      requires c in refs
      modifies `refs
      ensures refs == old(refs) - multiset{c}
    {
      refs := refs - multiset{c};
    }

    /** Someone other than the cache takes a reference, of a new context or an existing one. */
    method Hold(c: Ctx)
      modifies this
      ensures refs == old(refs) + multiset{c} && outside == old(outside) + multiset{c}
    {
      refs, outside := refs + multiset{c}, outside + multiset{c};
    }

    /** Someone other than the cache gives a reference back. */
    method Release(c: Ctx)
      requires c in refs && c in outside
      modifies this
      ensures refs == old(refs) - multiset{c} && outside == old(outside) - multiset{c}
    {
      refs, outside := refs - multiset{c}, outside - multiset{c};
    }
  }

  // ---------------------------------------------------------------- the cache itself

  /** A list node; an iterator is a reference to one. */
  class Node {
    const host: string
    var ctx: Ctx

    constructor (host: string, ctx: Ctx)
      ensures this.host == host && this.ctx == ctx
    {
      this.host, this.ctx := host, ctx;
    }
  }

  /** List and map hold exactly the same distinct hostnames. */
  ghost predicate LinkedTo(order: seq<Node>, index: map<string, Node>) {
    && (forall i :: 0 <= i < |order| ==> order[i].host in index && index[order[i].host] == order[i])
    && (forall h :: h in index ==> index[h] in order && index[h].host == h)
    && (forall i, j :: 0 <= i < j < |order| ==> order[i].host != order[j].host)
  }

  function MoveToFront<T>(s: seq<T>, k: nat): (r: seq<T>)
    requires k < |s|
    ensures |r| == |s|
    ensures forall i :: 0 <= i < |s| ==> r[i] == s[if i == 0 then k else if i <= k then i - 1 else i]
  {
    [s[k]] + (s[..k] + s[k + 1..])
  }

  /** Splicing an updated node to the front is promoting its entry. */
  lemma PromoteIsMove(es: seq<Entry>, k: nat, ctx: Ctx)
    requires Distinct(es) && k < |es|
    ensures Lookup(es, es[k].host) == Some(es[k].ctx)
    ensures MoveToFront(es[k := Entry(es[k].host, ctx)], k) == [Entry(es[k].host, ctx)] + Without(es, es[k].host)
    ensures ctx == es[k].ctx ==> es[k := Entry(es[k].host, ctx)] == es
  {
    WithoutIsCut(es, k);
    var es' := es[k := Entry(es[k].host, ctx)];
    assert es'[..k] + es'[k + 1..] == es[..k] + es[k + 1..];
  }

  lemma MoveKeepsMembers<T>(s: seq<T>, k: nat, x: T)
    requires k < |s| && x in s
    ensures x in MoveToFront(s, k)
  {
    var i :| 0 <= i < |s| && s[i] == x;
    assert MoveToFront(s, k)[if i == k then 0 else if i < k then i + 1 else i] == x;
  }

  lemma MoveKeepsLinks(order: seq<Node>, index: map<string, Node>, k: nat)
    requires LinkedTo(order, index) && k < |order|
    ensures LinkedTo(MoveToFront(order, k), index)
  {
    forall h | h in index ensures index[h] in MoveToFront(order, k) {
      MoveKeepsMembers(order, k, index[h]);
    }
  }

  lemma OnePlace(order: seq<Node>, index: map<string, Node>, i: nat, j: nat)
    requires LinkedTo(order, index) && i < |order| && j < |order| && order[i] == order[j]
    ensures i == j
  {
  }

  lemma PopKeepsLinks(order: seq<Node>, index: map<string, Node>)
    requires LinkedTo(order, index) && order != []
    ensures LinkedTo(order[..|order| - 1], index - {order[|order| - 1].host})
  {
    var rest := order[..|order| - 1];
    forall h | h in index && h != order[|order| - 1].host ensures index[h] in rest {
      var i :| 0 <= i < |order| && order[i] == index[h];
      assert rest[i] == index[h];
    }
  }

  lemma PushKeepsLinks(order: seq<Node>, index: map<string, Node>, node: Node)
    requires LinkedTo(order, index) && node.host !in index
    ensures LinkedTo([node] + order, index[node.host := node])
  {
    var r := [node] + order;
    forall h | h in index ensures index[h] in r {
      var i :| 0 <= i < |order| && order[i] == index[h];
      assert r[i + 1] == index[h];
    }
  }

  /** The nodes hold these entries. */
  ghost predicate Mirrors(order: seq<Node>, entries: seq<Entry>)
    reads order
  {
    |entries| == |order| && forall i :: 0 <= i < |order| ==> entries[i] == Entry(order[i].host, order[i].ctx)
  }

  lemma MirrorsMove(order: seq<Node>, entries: seq<Entry>, k: nat)
    requires Mirrors(order, entries) && k < |order|
    ensures Mirrors(MoveToFront(order, k), MoveToFront(entries, k))
  {
  }

  lemma MirrorsPush(order: seq<Node>, entries: seq<Entry>, node: Node)
    requires Mirrors(order, entries)
    ensures Mirrors([node] + order, [Entry(node.host, node.ctx)] + entries)
  {
  }

  ghost predicate Owned(order: seq<Node>, nodes: set<Node>) { forall i :: 0 <= i < |order| ==> order[i] in nodes }

  class CertCache {
    const maxEntries: nat
    const ssl: OpenSsl
    var order: seq<Node>               // MRU first
    var index: map<string, Node>
    ghost var entries: seq<Entry>      // what the nodes hold, in order
    ghost var nodes: set<Node>         // the nodes ever linked

    ghost predicate Holds()
      reads this, order
    {
      Mirrors(order, entries)
    }

    ghost predicate Valid()
      reads this, order, ssl
    {
      && LinkedTo(order, index) && Holds() && Owned(order, nodes)
      && (maxEntries >= 1 ==> |order| <= maxEntries)
      && Ledger(ssl.refs, ssl.outside, entries)
    }

    constructor (maxEntries: nat, ssl: OpenSsl)
      requires ssl.refs == ssl.outside
      ensures Valid() && entries == [] && nodes == {} && this.maxEntries == maxEntries && this.ssl == ssl
    {
      this.maxEntries, this.ssl := maxEntries, ssl;
      order, index, entries, nodes := [], map[], [], {};
    }

    /** The position of an entry's node in the list. */
    lemma Locate(hostname: string) returns (k: nat)
      requires Valid() && hostname in index
      ensures k < |order| && order[k] == index[hostname] && Distinct(entries)
      ensures entries[k] == Entry(hostname, index[hostname].ctx)
    {
      k :| 0 <= k < |order| && order[k] == index[hostname];
    }

    /** order_.splice(order_.begin(), order_, it), where the iterator stands at position k. */
    method MoveNode(node: Node, ghost k: nat)
      requires LinkedTo(order, index) && Holds() && k < |order| && order[k] == node
      modifies `order, `entries
      ensures LinkedTo(order, index) && Holds()
      ensures order == MoveToFront(old(order), k) && entries == MoveToFront(old(entries), k)
    {
      var at :| 0 <= at < |order| && order[at] == node;
      OnePlace(order, index, at, k);
      MoveKeepsLinks(order, index, k);
      MirrorsMove(order, entries, k);
      order := MoveToFront(order, at);
      entries := MoveToFront(entries, k);
    }

    method Splice(node: Node, ghost k: nat)
      requires Valid() && k < |order| && order[k] == node
      modifies `order, `entries
      ensures Valid() && entries == MoveToFront(old(entries), k)
    {
      MoveNode(node, k);
      LedgerMove(ssl.refs, ssl.outside, old(entries), k);
    }

    method Get(hostname: string) returns (r: Option<Ctx>)
      requires Valid()
      modifies `order, `entries
      ensures Valid() && entries == LruGet(old(entries), hostname)
      ensures r == Lookup(old(entries), hostname)
    {
      LookupHas(entries, hostname);
      if hostname !in index { return None; }
      var node := index[hostname];
      ghost var k := Locate(hostname);
      PromoteIsMove(entries, k, node.ctx);
      Splice(node, k);
      return Some(node.ctx);
    }

    method Overwrite(node: Node, ctx: Ctx, ghost k: nat)
      requires LinkedTo(order, index) && Holds() && k < |order| && order[k] == node
      modifies node, `entries
      ensures Holds() && entries == old(entries)[k := Entry(node.host, ctx)]
    {
      node.ctx := ctx;
      entries := entries[k := Entry(node.host, ctx)];
    }

    /** Replaces the context of an existing entry: the old one is released, the new one held. */
    method Replace(node: Node, ctx: Ctx, ghost k: nat)
      requires Valid() && k < |order| && order[k] == node && ctx in ssl.outside
      modifies node, this`entries, ssl`refs
      ensures Valid() && entries == old(entries)[k := Entry(node.host, ctx)]
    {
      LedgerReplace(ssl.refs, ssl.outside, entries, k, ctx);
      ssl.Free(node.ctx);
      Overwrite(node, ctx, k);
      ssl.UpRef(ctx);
    }

    method PopBack()
      requires LinkedTo(order, index) && Holds() && order != []
      modifies `order, `index, `entries
      ensures LinkedTo(order, index) && Holds() && index == old(index - {order[|order| - 1].host})
      ensures order == old(order[..|order| - 1]) && entries == old(entries[..|entries| - 1])
    {
      PopKeepsLinks(order, index);
      index := index - {order[|order| - 1].host};
      order, entries := order[..|order| - 1], entries[..|order| - 1];
    }

    /** Drops the least recently used entry. */
    method Evict()
      requires Valid() && order != []
      modifies `order, `index, `entries, ssl`refs
      ensures Valid() && index == old(index - {order[|order| - 1].host})
      ensures entries == old(entries[..|entries| - 1])
    {
      LedgerEvict(ssl.refs, ssl.outside, entries);
      ssl.Free(order[|order| - 1].ctx);
      PopBack();
    }

    method PushFront(hostname: string, ctx: Ctx)
      requires LinkedTo(order, index) && Holds() && hostname !in index
      modifies this
      ensures LinkedTo(order, index) && Holds()
      ensures order != [] && fresh(order[0]) && order == [order[0]] + old(order) && nodes == old(nodes) + {order[0]}
      ensures entries == [Entry(hostname, ctx)] + old(entries)
    {
      var node := new Node(hostname, ctx);
      PushKeepsLinks(order, index, node);
      MirrorsPush(order, entries, node);
      order, entries := [node] + order, [Entry(hostname, ctx)] + entries;
      index, nodes := index[hostname := node], nodes + {node};
    }

    method Insert(hostname: string, ctx: Ctx)
      requires Valid() && hostname !in index && (maxEntries >= 1 ==> |order| < maxEntries) && ctx in ssl.outside
      modifies this, ssl`refs
      ensures Valid() && entries == [Entry(hostname, ctx)] + old(entries) && fresh(nodes - old(nodes))
    {
      LedgerInsert(ssl.refs, ssl.outside, entries, Entry(hostname, ctx));
      ssl.UpRef(ctx);
      PushFront(hostname, ctx);
    }

    /** The update of an entry that exists: new context, promoted to the front. */
    method Update(hostname: string, ctx: Ctx)
      requires Valid() && hostname in index && ctx in ssl.outside
      modifies `order, `entries, order, ssl`refs
      ensures Valid() && Lookup(old(entries), hostname).Some?
      ensures entries == [Entry(hostname, ctx)] + Without(old(entries), hostname)
    {
      var node := index[hostname];
      ghost var k := Locate(hostname);
      PromoteIsMove(entries, k, ctx);
      Replace(node, ctx, k);
      assert entries == old(entries)[k := Entry(hostname, ctx)];
      Splice(node, k);
    }

    /** The caller holds a reference to ctx; with capacity 0 the source reads the back of an empty list. */
    method Put(hostname: string, ctx: Ctx)
      requires Valid() && maxEntries >= 1 && ctx in ssl.outside
      modifies this, order, ssl`refs
      ensures Valid() && entries == LruPut(old(entries), maxEntries, hostname, ctx) && fresh(nodes - old(nodes))
    {
      LookupHas(entries, hostname);
      if hostname in index {
        Update(hostname, ctx);
        return;
      }
      if |order| >= maxEntries {
        Evict();
      }
      Insert(hostname, ctx);
    }

    /** ~CertCache: every entry's reference is given back, and only those. */
    method Destroy()
      requires Valid()
      modifies ssl`refs
      ensures ssl.refs == ssl.outside
    {
      var i := 0;
      while i < |order|
        invariant 0 <= i <= |order| && Holds()
        invariant Ledger(ssl.refs, ssl.outside, entries[i..])
      {
        LedgerFree(ssl.refs, ssl.outside, entries[i..]);
        assert entries[i..][1..] == entries[i + 1..];
        ssl.Free(order[i].ctx);
        i := i + 1;
      }
    }
  }

  // ---------------------------------------------------------------- whole lives

  /** What happens around a cache: its own operations, and references taken and given back outside it. */
  datatype Event = Use(op: Op) | Hold(ctx: Ctx) | Release(ctx: Ctx)

  /** The references held outside the cache after a run. */
  function Holders(events: seq<Event>): multiset<Ctx> {
    if events == [] then multiset{}
    else Shift(Holders(events[..|events| - 1]), events[|events| - 1])
  }

  function Shift(held: multiset<Ctx>, e: Event): multiset<Ctx> {
    match e
    case Use(_) => held
    case Hold(c) => held + multiset{c}
    case Release(c) => held - multiset{c}
  }

  /** The operations among the events. */
  function OpsOf(events: seq<Event>): seq<Op> {
    if events == [] then []
    else
      var before, last := OpsOf(events[..|events| - 1]), events[|events| - 1];
      if last.Use? then before + [last.op] else before
  }

  /** Callers hold what they put and what they release. */
  predicate Proper(events: seq<Event>) {
    forall k :: 0 <= k < |events| ==> Permitted(Holders(events[..k]), events[k])
  }

  predicate Permitted(held: multiset<Ctx>, e: Event) {
    match e
    case Use(Put(_, c)) => c in held
    case Release(c) => c in held
    case _ => true
  }

  lemma RunOpsPush(capacity: nat, ops: seq<Op>, op: Op)
    requires capacity >= 1
    ensures RunOps(capacity, ops + [op]) == Step(RunOps(capacity, ops), capacity, op)
  {
    assert (ops + [op])[..|ops|] == ops;
  }

  /** The ledger is indifferent to what happens outside the cache. */
  lemma LedgerOutside(refs: multiset<Ctx>, outside: multiset<Ctx>, es: seq<Entry>, c: Ctx)
    requires Ledger(refs, outside, es)
    ensures Ledger(refs + multiset{c}, outside + multiset{c}, es)
    ensures c in outside ==> c in refs && Ledger(refs - multiset{c}, outside - multiset{c}, es)
  {
  }

  /** The specified cache and outside references after one more event. */
  lemma EventsPush(capacity: nat, events: seq<Event>, i: nat)
    requires i < |events| && capacity >= 1
    ensures RunOps(capacity, OpsOf(events[..i + 1])) == (
              var es := RunOps(capacity, OpsOf(events[..i]));
              if events[i].Use? then Step(es, capacity, events[i].op) else es)
    ensures Holders(events[..i + 1]) == Shift(Holders(events[..i]), events[i])
  {
    assert events[..i + 1][..i] == events[..i];
    if events[i].Use? { RunOpsPush(capacity, OpsOf(events[..i]), events[i].op); }
  }

  /** One event on a cache and the reference counts. */
  method Apply(cache: CertCache, e: Event)
    requires cache.Valid() && cache.maxEntries >= 1
    requires Permitted(cache.ssl.outside, e)
    modifies cache, cache.order, cache.ssl
    ensures cache.Valid() && fresh(cache.nodes - old(cache.nodes))
    ensures cache.entries == if e.Use? then Step(old(cache.entries), cache.maxEntries, e.op) else old(cache.entries)
    ensures cache.ssl.outside == Shift(old(cache.ssl.outside), e)
  {
    match e
    case Use(Get(h)) => var _ := cache.Get(h);
    case Use(Put(h, c)) => cache.Put(h, c);
    case Hold(c) =>
      LedgerOutside(cache.ssl.refs, cache.ssl.outside, cache.entries, c);
      cache.ssl.Hold(c);
    case Release(c) =>
      LedgerOutside(cache.ssl.refs, cache.ssl.outside, cache.entries, c);
      cache.ssl.Release(c);
  }

  /** Any proper run on a new cache leaves the specified entries, and every context is referenced by
      its outside holders and by the entries that name it, no more and no less. */
  method Replay(maxEntries: nat, events: seq<Event>) returns (cache: CertCache)
    requires maxEntries >= 1 && Proper(events)
    ensures fresh(cache) && fresh(cache.ssl) && cache.Valid() && cache.maxEntries == maxEntries
    ensures cache.entries == RunOps(maxEntries, OpsOf(events))
    ensures cache.ssl.outside == Holders(events)
    ensures cache.ssl.refs == Holders(events) + Bag(RunOps(maxEntries, OpsOf(events)))
  {
    var ssl := new OpenSsl();
    cache := new CertCache(maxEntries, ssl);
    for i := 0 to |events|
      invariant fresh(cache) && fresh(ssl) && fresh(cache.nodes) && cache.ssl == ssl
      invariant cache.Valid() && cache.maxEntries == maxEntries
      invariant cache.entries == RunOps(maxEntries, OpsOf(events[..i])) && ssl.outside == Holders(events[..i])
    {
      EventsPush(maxEntries, events, i);
      Apply(cache, events[i]);
    }
    assert events[..|events|] == events;
  }

  /** Destroying the cache after any proper run leaves exactly the references held outside. */
  method Lifetime(maxEntries: nat, events: seq<Event>) returns (ssl: OpenSsl)
    requires maxEntries >= 1 && Proper(events)
    ensures ssl.refs == Holders(events)
  {
    var cache := Replay(maxEntries, events);
    ssl := cache.ssl;
    cache.Destroy();
  }
}
