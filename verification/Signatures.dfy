/** Input signatures: what makes an earlier result reusable
    (qualification/release/qualify.py, lines 161-193). */
module Signatures {
  import opened Basics
  import opened Matrix

  const BUILD := "build"

  /** The fields `fingerprint` hashes. */
  datatype Fields = Fields(
    id: string,
    needs: Option<seq<string>>,
    needsByPlatform: Option<map<string, seq<string>>>,
    expected: Option<string>,
    sourceInputs: seq<string>,
    command: seq<string>,
    cwd: string)

  /** The record `signature` hashes; `baseline` is present only for jobs that declare the input. */
  datatype Data = Data(
    schema: nat,
    job: string,
    sources: map<string, string>,
    parents: map<string, string>,
    baseline: Option<string>)

  /** SHA-256 of the serialised records. */
  datatype Hashing = Hashing(fields: Fields -> string, data: Data -> string)

  /** Everything a signature may depend on, at one HEAD. `treeId` is the git object of a path. */
  datatype Context = Context(
    jobs: map<string, Job>,
    platform: string,
    rank: map<string, nat>,
    treeId: string -> string,
    product: string,
    baseline: string,
    hash: Hashing)

  /** The state `load_matrix` leaves: every row good, ids as keys, dependencies ranked. */
  ghost predicate Sound(c: Context) {
    && Ranked(c.jobs, c.platform, c.rank)
    && forall n :: n in c.jobs ==> c.jobs[n].id == n && c.platform in c.jobs[n].commands
  }

  function JobFields(job: Job, platform: string): Fields
    requires platform in job.commands
  {
    Fields(job.id, job.needs, job.needsByPlatform, job.expected, job.sourceInputs,
           job.commands[platform], GetOr(job.cwd, "{root}"))
  }

  function Sources(c: Context, job: Job): map<string, string> {
    map path | path in job.sourceInputs :: c.treeId(path)
  }

  /** A parent is cut off at an installed `build`. */
  predicate CutAt(c: Context, parent: string) {
    parent == BUILD && c.product != ""
  }

  function SignatureData(c: Context, n: string): Data
    requires Sound(c) && n in c.jobs
    decreases c.rank[n], 0
  {
    var job := c.jobs[n];
    assert forall p :: p in Parents(job, c.platform) ==> Edge(c.jobs, c.platform, n, p);
    Data(2,
         c.hash.fields(JobFields(job, c.platform)),
         Sources(c, job),
         map p | p in Parents(job, c.platform) :: if CutAt(c, p) then c.product else Signature(c, p),
         if job.baselineInput then Some(c.baseline) else None)
  }

  /** The signature of a job by plain recursion over its parents. */
  function Signature(c: Context, n: string): string
    requires Sound(c) && n in c.jobs
    decreases c.rank[n], 1
  {
    c.hash.data(SignatureData(c, n))
  }

  // ----- What equal signatures mean -----

  /** Of the records hashed for job `n` in one context and `m` in the other, none share a digest without
      being equal. */
  ghost predicate Tells(c: Context, d: Context, n: string, m: string)
    requires Sound(c) && Sound(d) && n in c.jobs && m in d.jobs
  {
    var x, y := JobFields(c.jobs[n], c.platform), JobFields(d.jobs[m], d.platform);
    && (c.hash.fields(x) == d.hash.fields(y) ==> x == y)
    && (Signature(c, n) == Signature(d, m) ==> SignatureData(c, n) == SignatureData(d, m))
  }

  /** No two records hashed in the two contexts collide. */
  ghost predicate NoCollision(c: Context, d: Context)
    requires Sound(c) && Sound(d)
  {
    forall n, m {:trigger Tells(c, d, n, m)} :: n in c.jobs && m in d.jobs ==> Tells(c, d, n, m)
  }

  /** Two declarations of a job say the same on their platforms: name, both lists of parents, expected text,
      source inputs, command and directory. */
  ghost predicate SameDeclaration(x: Job, p: string, y: Job, q: string) {
    && x.id == y.id && x.needs == y.needs && x.needsByPlatform == y.needsByPlatform && x.expected == y.expected
    && x.sourceInputs == y.sourceInputs
    && p in x.commands && q in y.commands && x.commands[p] == y.commands[q]
    && (if x.cwd.Some? then x.cwd.value else "{root}") == (if y.cwd.Some? then y.cwd.value else "{root}")
  }

  /** Two contexts give a job the same inputs: the same declaration, source trees and baseline, and
      parents that are the same installed product or again agree. */
  ghost predicate Agree(c: Context, d: Context, n: string)
    requires Sound(c)
    decreases if n in c.jobs then c.rank[n] else 0
  {
    && n in c.jobs && n in d.jobs
    && SameDeclaration(c.jobs[n], c.platform, d.jobs[n], d.platform)
    && (forall path :: path in c.jobs[n].sourceInputs ==> c.treeId(path) == d.treeId(path))
    && c.jobs[n].baselineInput == d.jobs[n].baselineInput
    && (c.jobs[n].baselineInput ==> c.baseline == d.baseline)
    && forall p :: HasParent(c.jobs[n], c.platform, p) ==>
         if p == BUILD && c.product != "" then c.product == d.product
         else Edge(c.jobs, c.platform, n, p) && Agree(c, d, p)
  }

  lemma DeclarationFields(x: Job, p: string, y: Job, q: string)
    requires p in x.commands && q in y.commands
    ensures SameDeclaration(x, p, y, q) <==> JobFields(x, p) == JobFields(y, q)
  {
  }

  lemma SameTrees(c: Context, d: Context, x: Job, y: Job)
    requires x.sourceInputs == y.sourceInputs
    ensures Sources(c, x) == Sources(d, y) <==>
      forall path :: path in x.sourceInputs ==> c.treeId(path) == d.treeId(path)
  {
    if Sources(c, x) == Sources(d, y) {
      forall path | path in x.sourceInputs
        ensures c.treeId(path) == d.treeId(path)
      {
        assert path in Sources(c, x) && Sources(c, x)[path] == Sources(d, y)[path];
      }
    }
  }

  /** Both contexts of a comparison: one hash, one platform, and a product installed in both or in
      neither. */
  ghost predicate Comparable(c: Context, d: Context) {
    Sound(c) && Sound(d) && c.platform == d.platform && c.hash == d.hash && (c.product == "" <==> d.product == "")
  }

  lemma SameParents(c: Context, d: Context, n: string)
    requires Comparable(c, d) && n in c.jobs && n in d.jobs
    requires JobFields(c.jobs[n], c.platform) == JobFields(d.jobs[n], d.platform)
    ensures Parents(c.jobs[n], c.platform) == Parents(d.jobs[n], d.platform)
  {
  }

  /** Merkle soundness: one signature, one set of inputs, recursively down to the installed build. */
  lemma {:induction false} SignatureSound(c: Context, d: Context, n: string, m: string)
    requires Comparable(c, d) && NoCollision(c, d)
    requires n in c.jobs && m in d.jobs && Signature(c, n) == Signature(d, m)
    ensures n == m && Agree(c, d, n)
    decreases c.rank[n]
  {
    var x, y := SignatureData(c, n), SignatureData(d, m);
    assert Tells(c, d, n, m);
    assert x == y;
    assert JobFields(c.jobs[n], c.platform) == JobFields(d.jobs[m], d.platform);
    SameParents(c, d, n);
    DeclarationFields(c.jobs[n], c.platform, d.jobs[n], d.platform);
    SameTrees(c, d, c.jobs[n], d.jobs[n]);
    forall p | HasParent(c.jobs[n], c.platform, p)
      ensures if p == BUILD && c.product != "" then c.product == d.product
              else Edge(c.jobs, c.platform, n, p) && Agree(c, d, p)
    {
      ParentsAre(c.jobs[n], c.platform, p);
      assert Edge(c.jobs, c.platform, n, p) && Edge(d.jobs, d.platform, n, p);
      assert x.parents[p] == y.parents[p];
      if !CutAt(c, p) {
        SignatureSound(c, d, p, p);
      }
    }
  }

  /** The converse: agreeing inputs always give one signature, so nothing else enters it. */
  lemma {:induction false} SignatureComplete(c: Context, d: Context, n: string)
    requires Comparable(c, d) && n in c.jobs && Agree(c, d, n)
    ensures Signature(c, n) == Signature(d, n)
    decreases c.rank[n]
  {
    DeclarationFields(c.jobs[n], c.platform, d.jobs[n], d.platform);
    SameTrees(c, d, c.jobs[n], d.jobs[n]);
    SameParents(c, d, n);
    var x, y := SignatureData(c, n), SignatureData(d, n);
    forall p | p in x.parents
      ensures p in y.parents && x.parents[p] == y.parents[p]
    {
      ParentsAre(c.jobs[n], c.platform, p);
      assert Edge(c.jobs, c.platform, n, p);
      if !CutAt(c, p) {
        SignatureComplete(c, d, p);
      }
    }
    assert x.parents.Keys == y.parents.Keys;
    assert x.parents == y.parents;
  }

  /** Equal signatures decide equal inputs. */
  lemma SignatureDecides(c: Context, d: Context, n: string)
    requires Comparable(c, d) && NoCollision(c, d) && n in c.jobs && n in d.jobs
    ensures Signature(c, n) == Signature(d, n) <==> Agree(c, d, n)
  {
    if Signature(c, n) == Signature(d, n) {
      SignatureSound(c, d, n, n);
    }
    if Agree(c, d, n) {
      SignatureComplete(c, d, n);
    }
  }

  // ----- The product -----

  /** Some chain of parents leads from `n` to `build`. */
  ghost predicate NeedsBuild(c: Context, n: string)
    requires Sound(c)
    decreases if n in c.jobs then c.rank[n] else 0
  {
    exists p :: Edge(c.jobs, c.platform, n, p) && (p == BUILD || NeedsBuild(c, p))
  }

  function WithProduct(c: Context, product: string): (d: Context)
    ensures Sound(c) ==> Sound(d)
  {
    c.(product := product)
  }

  /** A new product leaves the signature of every job without `build` among its ancestors alone. */
  lemma {:induction false} ProductIrrelevant(c: Context, n: string, product: string)
    requires Sound(c) && n in c.jobs && !NeedsBuild(c, n)
    ensures Signature(WithProduct(c, product), n) == Signature(c, n)
    decreases c.rank[n]
  {
    var d := WithProduct(c, product);
    var x, y := SignatureData(c, n), SignatureData(d, n);
    forall p | p in x.parents
      ensures x.parents[p] == y.parents[p]
    {
      assert Edge(c.jobs, c.platform, n, p);
      ProductIrrelevant(c, p, product);
    }
    assert x.parents == y.parents;
  }

  /** Conversely, replacing an installed product by another changes the signature of every job that
      needs `build`: none of its old results can be reused. */
  lemma {:induction false} ProductMatters(c: Context, n: string, product: string)
    requires Sound(c) && NoCollision(WithProduct(c, product), c) && n in c.jobs && NeedsBuild(c, n)
    requires c.product != "" && product != "" && product != c.product
    ensures Signature(WithProduct(c, product), n) != Signature(c, n)
    decreases c.rank[n]
  {
    var d := WithProduct(c, product);
    var x, y := SignatureData(c, n), SignatureData(d, n);
    var p :| Edge(c.jobs, c.platform, n, p) && (p == BUILD || NeedsBuild(c, p));
    if p != BUILD {
      ProductMatters(c, p, product);
    }
    assert x.parents[p] != y.parents[p];
    assert Tells(d, c, n, n);
  }

  // ----- The memoised computation -----

  function AllSignatures(c: Context): (sigs: map<string, string>)
    requires Sound(c)
  {
    map n | n in c.jobs :: Signature(c, n)
  }

  class Memo {
    const context: Context
    var treeIds: map<string, string>
    var signatures: map<string, string>

    constructor (context: Context)
      requires Sound(context)
      ensures this.context == context && Valid() && signatures == map[]
    {
      this.context := context;
      treeIds, signatures := map[], map[];
    }

    /** Both tables hold only right answers. */
    ghost predicate Valid()
      reads this
    {
      && Sound(context)
      && (forall path :: path in treeIds ==> treeIds[path] == context.treeId(path))
      && (forall n :: n in signatures ==> n in context.jobs && signatures[n] == Signature(context, n))
    }

    method JobSources(job: Job) returns (sources: map<string, string>)
      requires Valid()
      modifies this`treeIds
      ensures Valid() && sources == Sources(context, job)
    {
      sources := map[];
      for i := 0 to |job.sourceInputs|
        invariant Valid()
        invariant sources == map path | path in job.sourceInputs[..i] :: context.treeId(path)
      {
        var path := job.sourceInputs[i];
        if path !in treeIds {
          treeIds := treeIds[path := context.treeId(path)];
        }
        assert job.sourceInputs[..i + 1] == job.sourceInputs[..i] + [path];
        sources := sources[path := treeIds[path]];
      }
      assert job.sourceInputs[..|job.sourceInputs|] == job.sourceInputs;
    }

    /** One parent of `n`. */
    method ParentValue(n: string, p: string) returns (value: string)
      requires Valid() && n in context.jobs && Edge(context.jobs, context.platform, n, p)
      modifies this`treeIds, this`signatures
      ensures Valid() && old(signatures).Keys <= signatures.Keys
      ensures var parents := SignatureData(context, n).parents; p in parents && value == parents[p]
      decreases context.rank[n], 0
    {
      value := context.product;
      if !CutAt(context, p) {
        value := Compute(p);
      }
    }

    method ParentSignatures(n: string) returns (parents: map<string, string>)
      requires Valid() && n in context.jobs
      modifies this`treeIds, this`signatures
      ensures Valid() && old(signatures).Keys <= signatures.Keys
      ensures parents == SignatureData(context, n).parents
      decreases context.rank[n], 1
    {
      var names := Parents(context.jobs[n], context.platform);
      ghost var goal := SignatureData(context, n).parents;
      assert goal.Keys == set p | p in names;
      parents := map[];
      for i := 0 to |names|
        invariant Valid() && old(signatures).Keys <= signatures.Keys
        invariant parents.Keys == (set p | p in names[..i])
        invariant forall p :: p in parents ==> p in goal && parents[p] == goal[p]
      {
        assert names[..i + 1] == names[..i] + [names[i]];
        var value := ParentValue(n, names[i]);
        parents := parents[names[i] := value];
      }
      assert names[..|names|] == names;
    }

    /** The memoised recursion returns what the plain one would, and forgets nothing. */
    method Compute(n: string) returns (signature: string)
      requires Valid() && n in context.jobs
      modifies this`treeIds, this`signatures
      ensures Valid() && n in signatures && old(signatures).Keys <= signatures.Keys
      ensures signature == Signature(context, n)
      decreases context.rank[n], 2
    {
      if n !in signatures {
        var job := context.jobs[n];
        var sources := JobSources(job);
        var parents := ParentSignatures(n);
        var data := Data(2, context.hash.fields(JobFields(job, context.platform)), sources, parents,
                         if job.baselineInput then Some(context.baseline) else None);
        signatures := signatures[n := context.hash.data(data)];
      }
      return signatures[n];
    }
  }

  method InputSignatures(c: Context, names: seq<string>) returns (sigs: map<string, string>)
    requires Sound(c) && c.jobs.Keys == set n | n in names
    ensures sigs == AllSignatures(c)
  {
    var memo := new Memo(c);
    for i := 0 to |names|
      invariant memo.Valid() && memo.context == c
      invariant forall k :: 0 <= k < i ==> names[k] in memo.signatures
    {
      var _ := memo.Compute(names[i]);
    }
    assert memo.signatures.Keys == c.jobs.Keys;
    return memo.signatures;
  }
}
