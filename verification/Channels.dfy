/** First-in-first-out channels that may lose and duplicate packets. */
module Channels {

  /** The channel without its packet `i`. */
  function Lose<T>(q: seq<T>, i: nat): (r: seq<T>) {
    if i < |q| then q[..i] + q[i + 1..] else q
  }

  /** The channel with its packet `i` twice in a row. */
  function Twice<T>(q: seq<T>, i: nat): (r: seq<T>) {
    if i < |q| then q[..i + 1] + q[i..] else q
  }

  /** Where the packets come from. */
  lemma LoseFrom<T>(q: seq<T>, i: nat, j: nat)
    requires j < |Lose(q, i)|
    ensures j < |q| && (i <= j ==> j + 1 < |q| || i >= |q|)
    ensures Lose(q, i)[j] == if j < i || i >= |q| then q[j] else q[j + 1]
  {
  }

  lemma TwiceFrom<T>(q: seq<T>, i: nat, j: nat)
    requires j < |Twice(q, i)|
    ensures j < |q| || (i < j == |q|)
    ensures Twice(q, i)[j] == if j <= i then q[j] else q[j - 1]
  {
  }

  /** The channel of a stop-and-wait sender: some copies of the older packet `a`,
      then some copies of the newer packet `b`. */
  ghost predicate Phases<T>(q: seq<T>, a: T, b: T) {
    && (forall i :: 0 <= i < |q| ==> q[i] == a || q[i] == b)
    && (forall i, j :: 0 <= i < j < |q| && q[i] == b ==> q[j] == b)
  }

  lemma PhasesLose<T>(q: seq<T>, a: T, b: T, i: nat)
    requires Phases(q, a, b)
    ensures Phases(Lose(q, i), a, b)
  {
  }

  lemma PhasesTwice<T>(q: seq<T>, a: T, b: T, i: nat)
    requires Phases(q, a, b)
    ensures Phases(Twice(q, i), a, b)
  {
  }

  lemma PhasesSend<T>(q: seq<T>, a: T, b: T)
    requires Phases(q, a, b)
    ensures Phases(q + [b], a, b)
  {
  }

  /** Once the newer packet is at the head, it is all there is. */
  lemma PhasesTake<T>(q: seq<T>, a: T, b: T)
    requires Phases(q, a, b) && q != []
    ensures q[0] == a || q[0] == b
    ensures Phases(q[1..], a, b)
    ensures q[0] == b ==> Phases(q[1..], b, b)
  {
  }

  /** A channel of copies of one packet can start a new phase. */
  lemma PhasesOf<T>(q: seq<T>, a: T, b: T)
    requires Phases(q, a, a) && a != b
    ensures Phases(q, a, b)
  {
  }

  /** What a sender has added to its packets. */
  function News<T>(before: seq<T>, after: seq<T>): (r: seq<T>) {
    if |before| <= |after| then after[|before|..] else []
  }

  lemma NewsOf<T>(sent: seq<T>, p: T, down: seq<T>)
    ensures down + News(sent, sent) == down
    ensures News(sent, sent + [p]) == [p]
  {
  }

  lemma OnePacket<T>(p: T)
    ensures Phases([] + [p], p, p)
  {
  }

  lemma NoPackets<T>(p: T)
    ensures Phases<T>([], p, p)
  {
  }

  /** A packet that occurs in a channel of two phases as the newer one is its last. */
  lemma NewerIsLast<T>(q: seq<T>, a: T, b: T)
    requires Phases(q, a, b) && b in q
    ensures q != [] && q[|q| - 1] == b
  {
    var i :| 0 <= i < |q| && q[i] == b;
  }
}
