/** What a green verdict of qualification/release/qualify.py (lines 626-642) says of the files that are installed
    when it is given, where the identity of a product is the digest of its files
    (qualification/release/inputs.py, lines 9-39). */
module ProductFiles {
  import opened Basics
  import opened Matrix
  import opened Scheduler
  import opened SchedulerSafety
  import opened SchedulerRuns
  import opened SchedulerLedger
  import G = Signatures
  import D = Digests

  /** The files of two products as they were digested can be compared: no two of the strings hashed collide. */
  ghost predicate CanTell(hash: string -> string, p: seq<D.Tree>, q: seq<D.Tree>) {
    && D.FixedLength(hash) && D.Readable(p) && D.Readable(q) && D.Named(D.Frames(p)) && D.Named(D.Frames(q))
    && D.NoCollision(hash, D.Hashed(hash, p) + D.Hashed(hash, q))
  }

  lemma DigestPresent(hash: string -> string, p: seq<D.Tree>)
    requires D.FixedLength(hash) && D.Readable(p)
    ensures D.Digest(hash, p) != ""
  {
    assert |D.Digest(hash, p)| == 32;
  }

  /** A green run whose recorded product had the files `p` and which finds the files `q` installed: these are the
      same names and contents, lines `built_utc=` of the build profile aside, and every job holds a pass with the
      signature that this product gives it. */
  lemma GreenMeansFiles(o: Origin, w: World, hash: string -> string, p: seq<D.Tree>, q: seq<D.Tree>, n: string)
    requires GoodConfig(o.cfg) && G.BUILD in o.cfg.context.jobs && n in o.cfg.context.jobs
    requires Run(o.cfg, Initial(o.cfg, o.ledger, o.recorded), o.ticks).LoopDone?
    requires Conclude(o.cfg, EndOf(o), w).0.Green?
    requires CanTell(hash, p, q)
    requires EndOf(o).recorded == Some(D.Digest(hash, p)) && w.installed == D.Digest(hash, q)
    ensures D.Frames(p) == D.Frames(q)
    ensures Passed(EndOf(o), n)
    ensures EndOf(o).results[n].signature == Some(G.Signature(G.WithProduct(o.cfg.context, D.Digest(hash, q)), n))
  {
    DigestPresent(hash, p);
    GreenRun(o.cfg, o.ledger, o.recorded, o.ticks, w);
    GreenMeans(o.cfg, EndOf(o), w, n);
    D.DigestDecides(hash, p, q);
    ReusedCarries(o, n);
    RecordedIsProduct(o);
  }

  /** The recorded product is the one that the signatures were computed from. */
  lemma RecordedIsProduct(o: Origin)
    requires GoodConfig(o.cfg) && G.BUILD in o.cfg.context.jobs && Passed(EndOf(o), G.BUILD)
    ensures EndOf(o).recorded == Some(EndOf(o).product)
  {
    GoodConfigUsable(o.cfg);
    InitialInv(o.cfg, o.ledger, o.recorded);
    RunSafe(o.cfg, Initial(o.cfg, o.ledger, o.recorded), o.ticks);
    assert Holds(Bound, o.cfg, EndOf(o));
  }

  /** Two contexts that agree on a job that needs `build` have the same product installed. */
  lemma {:induction false} AgreeSameProduct(c: G.Context, d: G.Context, n: string)
    requires G.Sound(c) && G.Agree(c, d, n) && G.NeedsBuild(c, n) && c.product != ""
    ensures d.product == c.product
    decreases c.rank[n]
  {
    var m :| Edge(c.jobs, c.platform, n, m) && (m == G.BUILD || G.NeedsBuild(c, m));
    ParentsAre(c.jobs[n], c.platform, m);
    if m != G.BUILD {
      AgreeSameProduct(c, d, m);
    }
  }

  /** So a result that is taken over, of a job that needs `build`, was obtained with the files that are installed
      now: the product `q` of this run and the product `p` of the run that produced the result. */
  lemma TakenOverSameFiles(now: Origin, then': Origin, hash: string -> string, p: seq<D.Tree>, q: seq<D.Tree>,
                           n: string)
    requires GoodConfig(now.cfg) && GoodConfig(then'.cfg) && G.Agree(ContextOf(now), ContextOf(then'), n)
    requires G.NeedsBuild(ContextOf(now), n) && CanTell(hash, p, q)
    requires EndOf(now).product == D.Digest(hash, q) && EndOf(then').product == D.Digest(hash, p)
    ensures D.Frames(p) == D.Frames(q)
  {
    DigestPresent(hash, q);
    AgreeSameProduct(ContextOf(now), ContextOf(then'), n);
    D.DigestDecides(hash, p, q);
  }
}
