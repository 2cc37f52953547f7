/**
 * The lock that makes `flush` wait until the change stream has caught up with
 * a revision: a caller waits for a revision, the change-stream thread reports
 * the revisions it starts and finishes, and finishing a revision releases every
 * waiter whose revision is not later than it.
 *
 * Revisions are Java `long`s that are only compared, never computed with, so
 * they are unbounded integers here. A waiter's semaphore is named by a ticket;
 * releasing it is reported as the waiter appearing in the list a call returns.
 */
module FlushLock {
  import opened Wrappers
  import Sorting

  /** A blocked `awaitRevision` call: the revision it waits for and its semaphore. */
  datatype Waiter = Waiter(revision: int, ticket: nat)

  /** The priority of a waiter in the queue: waiters compare by revision alone. */
  function RevisionOf(w: Waiter): int
  {
    w.revision
  }

  /** What `awaitRevision` does with a caller. */
  datatype AwaitOutcome =
    | AlreadySeen   // the revision has been seen: return at once
    | Enqueued      // the caller waits on its semaphore

  /** The waiters `finishedRevision(revision)` releases from a queue held in revision order. */
  predicate Releases(queue: seq<Waiter>, revision: int, released: seq<Waiter>, remaining: seq<Waiter>)
  {
    && queue == released + remaining
    && (forall i :: 0 <= i < |released| ==> released[i].revision <= revision)
    && (forall i :: 0 <= i < |remaining| ==> remaining[i].revision > revision)
  }

  /** The waiters at the head of `queue` that wait for `revision` or an earlier one. */
  function Due(queue: seq<Waiter>, revision: int): (r: seq<Waiter>)
    ensures |r| <= |queue|
  {
    if queue == [] || queue[0].revision > revision then []
    else [queue[0]] + Due(queue[1..], revision)
  }

  /**
   * The due waiters are a prefix of the queue, none of them waits for a later
   * revision, and the first waiter after them does.
   */
  lemma {:induction false} DueSplit(queue: seq<Waiter>, revision: int)
    ensures Due(queue, revision) == queue[..|Due(queue, revision)|]
    ensures forall i :: 0 <= i < |Due(queue, revision)| ==> queue[i].revision <= revision
    ensures |Due(queue, revision)| < |queue| ==> queue[|Due(queue, revision)|].revision > revision
  {
    if queue != [] && queue[0].revision <= revision {
      DueSplit(queue[1..], revision);
      assert Due(queue, revision) == [queue[0]] + Due(queue[1..], revision);
    }
  }

  /** On a queue in revision order, the due waiters are exactly those not later than the revision. */
  lemma DueReleases(queue: seq<Waiter>, revision: int)
    requires Sorting.SortedBy(queue, RevisionOf)
    ensures Releases(queue, revision, Due(queue, revision), queue[|Due(queue, revision)|..])
  {
    var n := |Due(queue, revision)|;
    DueSplit(queue, revision);
    LaterAfterDue(queue, revision);
    assert queue == queue[..n] + queue[n..];
  }

  /** On a queue in revision order, every waiter after the due ones waits for a later revision. */
  lemma LaterAfterDue(queue: seq<Waiter>, revision: int)
    requires Sorting.SortedBy(queue, RevisionOf)
    ensures forall i :: |Due(queue, revision)| <= i < |queue| ==> queue[i].revision > revision
  {
    var n := |Due(queue, revision)|;
    DueSplit(queue, revision);
    forall i | n <= i < |queue|
      ensures queue[i].revision > revision
    {
      assert RevisionOf(queue[n]) <= RevisionOf(queue[i]);
    }
  }

  class FlushLock {
    /** The latest revision the change stream has started processing. */
    var alreadySeen: int
    /** The waiters, in the order the priority queue hands them out. */
    var queue: seq<Waiter>

    ghost predicate Valid()
      reads this
    {
      Sorting.SortedBy(queue, RevisionOf)
    }

    constructor()
      ensures Valid()
      ensures alreadySeen == 0 && queue == []
    {
      alreadySeen := 0;
      queue := [];
    }

    /**
     * `awaitRevision`: a revision already seen returns at once; any other
     * enqueues a waiter with the caller's semaphore. The blocking acquire and
     * its timeout are not part of this model.
     */
    method AwaitRevision(revision: int, ticket: nat) returns (outcome: AwaitOutcome)
      requires Valid()
      modifies this
      ensures Valid()
      ensures alreadySeen == old(alreadySeen)
      ensures outcome == AlreadySeen <==> revision <= old(alreadySeen)
      ensures outcome == AlreadySeen ==> queue == old(queue)
      ensures outcome == Enqueued ==> multiset(queue) == multiset(old(queue)) + multiset{Waiter(revision, ticket)}
    {
      if revision <= alreadySeen {
        return AlreadySeen;
      }
      Sorting.InsertSorted(Waiter(revision, ticket), queue, RevisionOf);
      queue := Sorting.Insert(Waiter(revision, ticket), queue, RevisionOf);
      outcome := Enqueued;
    }

    /**
     * `startedRevision`: a missing revision changes nothing; otherwise the
     * revision, which must not be older than the last one seen, becomes the
     * latest seen.
     */
    method StartedRevision(revision: Option<int>)
      requires Valid()
      requires revision.Some? ==> alreadySeen <= revision.value
      modifies this
      ensures Valid()
      ensures queue == old(queue)
      ensures alreadySeen == if revision.Some? then revision.value else old(alreadySeen)
    {
      if revision.None? {
        return;
      }
      alreadySeen := revision.value;
    }

    /**
     * `finishedRevision`: a missing revision changes nothing; otherwise the
     * waiters are taken from the head of the queue, and released in that order,
     * until the queue is empty or its head waits for a later revision.
     */
    method FinishedRevision(revision: Option<int>) returns (released: seq<Waiter>)
      requires Valid()
      modifies this
      ensures Valid()
      ensures alreadySeen == old(alreadySeen)
      ensures revision.None? ==> released == [] && queue == old(queue)
      ensures revision.Some? ==> released == Due(old(queue), revision.value)
      ensures revision.Some? ==> queue == old(queue)[|released|..]
    {
      released := [];
      if revision.None? {
        return;
      }
      var rest;
      released, rest := TakeDue(queue, revision.value);
      SortedSuffix(queue, |released|);
      queue := rest;
    }
  }

  /** The loop of `finishedRevision`: takes waiters off the head while they are due. */
  method TakeDue(queue: seq<Waiter>, revision: int) returns (released: seq<Waiter>, rest: seq<Waiter>)
    ensures released == Due(queue, revision)
    ensures rest == queue[|released|..]
  {
    released := [];
    rest := queue;
    while rest != [] && rest[0].revision <= revision
      invariant |released| <= |queue| && rest == queue[|released|..]
      invariant Due(queue, revision) == released + Due(rest, revision)
      decreases |rest|
    {
      assert Due(rest, revision) == [rest[0]] + Due(rest[1..], revision);
      released := released + [rest[0]];
      rest := rest[1..];
    }
  }

  /** What is left of a revision-ordered queue after taking from its head is in order. */
  lemma SortedSuffix(queue: seq<Waiter>, k: nat)
    requires k <= |queue|
    requires Sorting.SortedBy(queue, RevisionOf)
    ensures Sorting.SortedBy(queue[k..], RevisionOf)
  {
    forall i, j | 0 <= i < j < |queue| - k
      ensures RevisionOf(queue[k..][i]) <= RevisionOf(queue[k..][j])
    {
      assert queue[k..][i] == queue[k + i] && queue[k..][j] == queue[k + j];
    }
  }

  /** A split of a revision-ordered queue by a revision is unique. */
  lemma ReleasesUnique(queue: seq<Waiter>, revision: int,
                          released1: seq<Waiter>, remaining1: seq<Waiter>,
                          released2: seq<Waiter>, remaining2: seq<Waiter>)
    requires Releases(queue, revision, released1, remaining1)
    requires Releases(queue, revision, released2, remaining2)
    ensures released1 == released2 && remaining1 == remaining2
  {
    Boundary(queue, revision, released1, remaining1);
    Boundary(queue, revision, released2, remaining2);
    if |released1| < |queue| {
      assert !(queue[|released1|].revision <= revision);
    }
    if |released2| < |queue| {
      assert !(queue[|released2|].revision <= revision);
    }
    assert released1 == queue[..|released1|] == released2;
  }

  /** The released waiters are exactly the queue positions whose revision is not later. */
  lemma Boundary(queue: seq<Waiter>, revision: int, released: seq<Waiter>, remaining: seq<Waiter>)
    requires Releases(queue, revision, released, remaining)
    ensures forall k :: 0 <= k < |queue| ==> (queue[k].revision <= revision <==> k < |released|)
  {
    forall k | 0 <= k < |queue|
      ensures queue[k].revision <= revision <==> k < |released|
    {
      if k < |released| {
        assert queue[k] == released[k];
      } else {
        assert queue[k] == remaining[k - |released|];
      }
    }
  }

  /** A queue holding exactly one waiter is that waiter alone. */
  lemma SingleWaiter(queue: seq<Waiter>, w: Waiter)
    requires multiset(queue) == multiset{w}
    ensures queue == [w]
  {
    assert |queue| == |multiset(queue)| == 1;
    assert queue[0] in multiset(queue);
  }

  /**
   * Waiters leave in revision order: released waiters are in order and none
   * waits for a later revision than any waiter still queued.
   */
  lemma ReleasedInOrder(queue: seq<Waiter>, revision: int, released: seq<Waiter>, remaining: seq<Waiter>)
    requires Sorting.SortedBy(queue, RevisionOf)
    requires Releases(queue, revision, released, remaining)
    ensures Sorting.SortedBy(released, RevisionOf)
    ensures forall i, j :: 0 <= i < |released| && 0 <= j < |remaining| ==> released[i].revision < remaining[j].revision
  {
    forall i, j | 0 <= i < j < |released|
      ensures RevisionOf(released[i]) <= RevisionOf(released[j])
    {
      assert released[i] == queue[i] && released[j] == queue[j];
    }
  }

  /**
   * A flush for revision 5 while the stream is at 3 waits; finishing 4 leaves
   * it waiting, finishing 7 releases it, and a later flush for 5 once revision
   * 7 has started returns at once.
   */
  method FlushWaitsForItsRevision() returns (first: AwaitOutcome, early: seq<Waiter>, late: seq<Waiter>, second: AwaitOutcome)
    ensures first == Enqueued && early == [] && late == [Waiter(5, 1)] && second == AlreadySeen
  {
    var lock := new FlushLock();
    lock.StartedRevision(Some(3));
    first := lock.AwaitRevision(5, 1);
    SingleWaiter(lock.queue, Waiter(5, 1));
    early := lock.FinishedRevision(Some(4));
    lock.StartedRevision(Some(7));
    late := lock.FinishedRevision(Some(7));
    second := lock.AwaitRevision(5, 2);
  }
}
