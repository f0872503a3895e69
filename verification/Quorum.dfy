/** Majorities of the acceptors. */
module Quorum {
  import opened Prelude
  import opened PaxosTypes

  function QuorumSize(acceptors: nat): nat { acceptors / 2 + 1 }

  ghost predicate Majority(acceptors: set<NodeId>, q: set<NodeId>) {
    q <= acceptors && |q| >= QuorumSize(|acceptors|)
  }

  lemma MajoritiesIntersect(acceptors: set<NodeId>, p: set<NodeId>, q: set<NodeId>) returns (a: NodeId)
    requires Majority(acceptors, p) && Majority(acceptors, q)
    ensures a in p && a in q
  {
    SubsetCardinality(p + q, acceptors);
    assert |p + q| + |p * q| == |p| + |q|;
    a :| a in p * q;
  }

  /** It is the least size at which any two sets must meet. */
  lemma QuorumIsLeast(acceptors: nat)
    ensures 2 * QuorumSize(acceptors) > acceptors >= 2 * (QuorumSize(acceptors) - 1)
  {
  }

  lemma LargerMajority(acceptors: set<NodeId>, p: set<NodeId>, q: set<NodeId>)
    requires Majority(acceptors, p) && p <= q <= acceptors
    ensures Majority(acceptors, q)
  {
    SubsetCardinality(p, q);
  }
}
