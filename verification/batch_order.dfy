/** The order in which the frames of one receive batch are handled: ESTOP frames first, stably. */
module BatchOrder {

  datatype MsgType = Hello | Heartbeat | CmdMode | CmdTask | CmdEstop | CmdReset | ParamGet | ParamSet | OtherMsg

  datatype Frame = Frame(kind: MsgType, seqNo: nat, payload: string)

  predicate IsEstop(f: Frame) {
    f.kind == CmdEstop
  }

  function Estops(fs: seq<Frame>): seq<Frame> {
    if fs == [] then [] else (if IsEstop(fs[0]) then [fs[0]] else []) + Estops(fs[1..])
  }

  function Others(fs: seq<Frame>): seq<Frame> {
    if fs == [] then [] else (if IsEstop(fs[0]) then [] else [fs[0]]) + Others(fs[1..])
  }

  /** What the stable sort by "is an ESTOP" leaves. */
  function UrgentFirst(fs: seq<Frame>): seq<Frame> {
    Estops(fs) + Others(fs)
  }

  /** No ESTOP frame comes after another frame. */
  ghost predicate Partitioned(fs: seq<Frame>) {
    forall i, j :: 0 <= i < j < |fs| && IsEstop(fs[j]) ==> IsEstop(fs[i])
  }

  lemma {:induction false} ClassesPure(fs: seq<Frame>)
    ensures forall f :: f in Estops(fs) ==> IsEstop(f)
    ensures forall f :: f in Others(fs) ==> !IsEstop(f)
  {
    if fs == [] {
    } else {
      ClassesPure(fs[1..]);
    }
  }

  lemma {:induction false} EstopsOfPure(es: seq<Frame>, os: seq<Frame>)
    requires forall f :: f in es ==> IsEstop(f)
    requires forall f :: f in os ==> !IsEstop(f)
    ensures Estops(es + os) == es && Others(es + os) == os
  {
    if es == [] {
      assert es + os == os;
      NoEstops(os);
    } else {
      assert (es + os)[1..] == es[1..] + os;
      EstopsOfPure(es[1..], os);
    }
  }

  lemma {:induction false} NoEstops(os: seq<Frame>)
    requires forall f :: f in os ==> !IsEstop(f)
    ensures Estops(os) == [] && Others(os) == os
  {
    if os == [] {
    } else {
      NoEstops(os[1..]);
    }
  }

  lemma {:induction false} NothingLost(fs: seq<Frame>)
    ensures multiset(UrgentFirst(fs)) == multiset(fs)
  {
    if fs == [] {
    } else {
      NothingLost(fs[1..]);
      assert fs == [fs[0]] + fs[1..];
    }
  }

  /** The handled order is a permutation of the batch with ESTOPs in front, each class in its old order. */
  lemma HandledOrder(fs: seq<Frame>)
    ensures Partitioned(UrgentFirst(fs))
    ensures multiset(UrgentFirst(fs)) == multiset(fs)
    ensures Estops(UrgentFirst(fs)) == Estops(fs) && Others(UrgentFirst(fs)) == Others(fs)
  {
    ClassesPure(fs);
    NothingLost(fs);
    EstopsOfPure(Estops(fs), Others(fs));
    var g := UrgentFirst(fs);
    forall i, j | 0 <= i < j < |g| && IsEstop(g[j]) ensures IsEstop(g[i]) {
      if j >= |Estops(fs)| {
        assert g[j] in Others(fs);
      }
    }
  }

  lemma {:induction false} NoLateEstop(rest: seq<Frame>, gs: seq<Frame>)
    requires gs != [] && !IsEstop(gs[0]) && Partitioned(gs)
    requires |rest| < |gs| && rest == gs[|gs| - |rest|..]
    ensures Estops(rest) == []
  {
    if rest == [] {
    } else {
      var k := |gs| - |rest|;
      assert rest[0] == gs[k];
      NoLateEstop(rest[1..], gs);
    }
  }

  lemma PartitionedRest(gs: seq<Frame>)
    requires gs != [] && Partitioned(gs)
    ensures Partitioned(gs[1..])
  {
  }

  /** And the only one: an order with ESTOPs in front is determined by its two classes. */
  lemma {:induction false} HandledOrderUnique(gs: seq<Frame>)
    requires Partitioned(gs)
    ensures gs == Estops(gs) + Others(gs)
  {
    if gs == [] {
    } else {
      PartitionedRest(gs);
      HandledOrderUnique(gs[1..]);
      assert gs == [gs[0]] + gs[1..];
      if IsEstop(gs[0]) {
        assert [gs[0]] + (Estops(gs[1..]) + Others(gs[1..])) == [gs[0]] + Estops(gs[1..]) + Others(gs[1..]);
      } else {
        NoLateEstop(gs[1..], gs);
        assert [] + Others(gs) == Others(gs) && [] + Others(gs[1..]) == Others(gs[1..]);
      }
    }
  }
}
