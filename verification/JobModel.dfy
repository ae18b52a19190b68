/** Jobs, phases and the small per-phase record shared by the scheduler model and the job manager. */
module JobModel {

  datatype Phase = Init | Main | CleanUp

  datatype ManagerState = Ready | CycleInit | CycleMain | CycleCleanUp

  datatype Continuation = Dispose | Requeue

  /** A job object. `ref` stands for the object's address: two objects may carry the same id. */
  datatype Job = Job(ref: nat, id: string, phase: Phase, async: bool)

  function CycleOf(p: Phase): ManagerState {
    match p
    case Init => CycleInit
    case Main => CycleMain
    case CleanUp => CycleCleanUp
  }

  /** One value per phase, for the three queues and the three phase counters. */
  datatype PerPhase<T> = PerPhase(init: T, main: T, cleanUp: T) {
    function At(p: Phase): T {
      match p
      case Init => init
      case Main => main
      case CleanUp => cleanUp
    }

    function Put(p: Phase, x: T): PerPhase<T> {
      match p
      case Init => PerPhase(x, main, cleanUp)
      case Main => PerPhase(init, x, cleanUp)
      case CleanUp => PerPhase(init, main, x)
    }
  }

  /** The queue that remains when every job with the given id is taken out. */
  function Without(q: seq<Job>, id: string): seq<Job> {
    if q == [] then []
    else if q[0].id == id then Without(q[1..], id)
    else [q[0]] + Without(q[1..], id)
  }

  /** The jobs with the given id, in queue order. */
  function Only(q: seq<Job>, id: string): seq<Job> {
    if q == [] then []
    else if q[0].id == id then [q[0]] + Only(q[1..], id)
    else Only(q[1..], id)
  }

  /** Sweeping a queue splits it: nothing is lost and nothing is made up. */
  lemma {:induction false} WithoutSplits(q: seq<Job>, id: string)
    ensures multiset(q) == multiset(Without(q, id)) + multiset(Only(q, id))
    ensures forall j :: j in Without(q, id) <==> j in q && j.id != id
  {
    if q == [] {
    } else {
      assert q == [q[0]] + q[1..];
      WithoutSplits(q[1..], id);
    }
  }

  /** The positions of q, counted from `base`, whose jobs do not carry the id. */
  function Kept(q: seq<Job>, id: string, base: nat): seq<nat> {
    if q == [] then []
    else if q[0].id == id then Kept(q[1..], id, base + 1)
    else [base] + Kept(q[1..], id, base + 1)
  }

  /** The kept positions are exactly those of the jobs with another id. */
  lemma {:induction false} KeptPositions(q: seq<Job>, id: string, base: nat, n: nat)
    ensures n in Kept(q, id, base) <==> base <= n < base + |q| && q[n - base].id != id
  {
    if q == [] {
    } else {
      KeptPositions(q[1..], id, base + 1, n);
    }
  }

  /** The k-th job left is the one at the k-th kept position, and kept positions strictly increase. */
  lemma {:induction false} WithoutKeepsOrder(q: seq<Job>, id: string, base: nat, k: nat)
    requires k < |Without(q, id)|
    ensures |Without(q, id)| == |Kept(q, id, base)|
    ensures base <= Kept(q, id, base)[k] < base + |q|
    ensures Without(q, id)[k] == q[Kept(q, id, base)[k] - base]
    ensures k > 0 ==> Kept(q, id, base)[k - 1] < Kept(q, id, base)[k]
  {
    KeptLength(q, id, base);
    if q[0].id == id {
      WithoutKeepsOrder(q[1..], id, base + 1, k);
    } else if k > 0 {
      assert Without(q, id)[k] == Without(q[1..], id)[k - 1];
      assert Kept(q, id, base)[k] == Kept(q[1..], id, base + 1)[k - 1];
      WithoutKeepsOrder(q[1..], id, base + 1, k - 1);
    }
  }

  lemma {:induction false} KeptLength(q: seq<Job>, id: string, base: nat)
    ensures |Without(q, id)| == |Kept(q, id, base)|
  {
    if q == [] {
    } else {
      KeptLength(q[1..], id, base + 1);
    }
  }
}
