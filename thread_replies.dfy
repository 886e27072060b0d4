/**
 * The reply list of one open thread (src/components/ThreadView.tsx) as values:
 * seeding it from a fetch, merging a live reply, and replacing one message's
 * reactions. The panel class in module ThreadView applies these to its state.
 *
 * The component orders replies with `Array.prototype.sort` and a comparator on
 * `created_at`. That sort is stable, so it is modelled by a stable insertion
 * sort, `SortByCreated`; its meaning is pinned down by the lemmas below
 * (sorted, a permutation, and equal timestamps keep their input order).
 */
module ThreadReplies {
  import opened Wrappers
  import opened Types
  import Seqs

  /** Ascending by creation time. */
  ghost predicate Sorted(s: seq<Message>) {
    forall i, j :: 0 <= i < j < |s| ==> s[i].createdAt <= s[j].createdAt
  }

  /** Some message in `s` carries id `id` (`findIndex(...) !== -1`). */
  predicate HasId(s: seq<Message>, id: int) {
    exists i :: 0 <= i < |s| && s[i].id == id
  }

  /** Place `x` after every message of `t` created no later than it. */
  function InsertByCreated(t: seq<Message>, x: Message): (r: seq<Message>)
    ensures multiset(r) == multiset(t) + multiset{x}
    ensures |r| == |t| + 1
  {
    if t == [] then [x]
    else
      var init, last := t[..|t| - 1], t[|t| - 1];
      assert t == init + [last];
      if last.createdAt <= x.createdAt then t + [x]
      else InsertByCreated(init, x) + [last]
  }

  /** Every message of the inserted list comes from `t` or is `x`. */
  lemma InsertElements(t: seq<Message>, x: Message, i: int)
    requires 0 <= i < |InsertByCreated(t, x)|
    ensures InsertByCreated(t, x)[i] in t || InsertByCreated(t, x)[i] == x
  {
    var r := InsertByCreated(t, x);
    assert r[i] in multiset(r);
  }

  /** Inserting into a sorted list keeps it sorted. */
  lemma {:induction false} InsertKeepsSorted(t: seq<Message>, x: Message)
    requires Sorted(t)
    ensures Sorted(InsertByCreated(t, x))
  {
    if t != [] {
      var init, last := t[..|t| - 1], t[|t| - 1];
      if last.createdAt > x.createdAt {
        assert Sorted(init);
        InsertKeepsSorted(init, x);
        var front := InsertByCreated(init, x);
        forall i | 0 <= i < |front| ensures front[i].createdAt <= last.createdAt {
          InsertElements(init, x, i);
        }
        assert InsertByCreated(t, x) == front + [last];
      }
    }
  }

  /** The stable sort of `s` by creation time: insert each message in input order. */
  function SortByCreated(s: seq<Message>): (r: seq<Message>)
    ensures Sorted(r)
    ensures multiset(r) == multiset(s)
    ensures |r| == |s|
  {
    if s == [] then []
    else
      assert s == s[..|s| - 1] + [s[|s| - 1]];
      var sortedInit := SortByCreated(s[..|s| - 1]);
      InsertKeepsSorted(sortedInit, s[|s| - 1]);
      InsertByCreated(sortedInit, s[|s| - 1])
  }

  /** Was the message created at time `k`? */
  function AtTime(k: int): Message -> bool {
    (m: Message) => m.createdAt == k
  }

  /** The messages of `s` created at time `k`, in order. */
  function CreatedAt(s: seq<Message>, k: int): seq<Message> {
    Seqs.Filter(AtTime(k), s)
  }

  /** Inserting into a sorted list puts `x` after the messages that share its timestamp. */
  lemma {:induction false} InsertIsStable(t: seq<Message>, x: Message, k: int)
    requires Sorted(t)
    ensures CreatedAt(InsertByCreated(t, x), k) == CreatedAt(t, k) + CreatedAt([x], k)
  {
    if t == [] {
      assert InsertByCreated(t, x) == [x];
      assert CreatedAt(t, k) == [];
    } else if t[|t| - 1].createdAt <= x.createdAt {
      Seqs.FilterAppend(AtTime(k), t, [x]);
    } else {
      var init, last := t[..|t| - 1], t[|t| - 1];
      assert Sorted(init);
      InsertIsStable(init, x, k);
      InsertBeforeLast(t, x, k);
    }
  }

  /** The step of `InsertIsStable` where `x` goes before the last message. */
  lemma InsertBeforeLast(t: seq<Message>, x: Message, k: int)
    requires t != [] && t[|t| - 1].createdAt > x.createdAt
    requires CreatedAt(InsertByCreated(t[..|t| - 1], x), k) == CreatedAt(t[..|t| - 1], k) + CreatedAt([x], k)
    ensures CreatedAt(InsertByCreated(t, x), k) == CreatedAt(t, k) + CreatedAt([x], k)
  {
    var init, last := t[..|t| - 1], t[|t| - 1];
    var front := InsertByCreated(init, x);
    Seqs.SplitLast(t);
    assert InsertByCreated(t, x) == front + [last];
    Seqs.FilterMoveLast(AtTime(k), front, init, last, x);
  }

  /**
   * Stability: among messages with the same timestamp, the sorted list keeps
   * the order they had in the input.
   */
  lemma {:induction false} SortIsStable(s: seq<Message>, k: int)
    ensures CreatedAt(SortByCreated(s), k) == CreatedAt(s, k)
  {
    if s != [] {
      var init, last := s[..|s| - 1], s[|s| - 1];
      assert s == init + [last];
      SortIsStable(init, k);
      InsertIsStable(SortByCreated(init), last, k);
      Seqs.FilterAppend(AtTime(k), init, [last]);
    }
  }

  /** Sorting a list that is already in order changes nothing. */
  lemma {:induction false} SortSortedIsIdentity(s: seq<Message>)
    requires Sorted(s)
    ensures SortByCreated(s) == s
  {
    if s != [] {
      var init := s[..|s| - 1];
      assert Sorted(init);
      SortSortedIsIdentity(init);
      assert s == init + [s[|s| - 1]];
    }
  }

  /** Is the message other than the one with id `id`? */
  function OtherThan(id: int): Message -> bool {
    (m: Message) => m.id != id
  }

  /** Messages of `s` whose id is not `parentId`. */
  function WithoutId(s: seq<Message>, parentId: int): seq<Message> {
    Seqs.Filter(OtherThan(parentId), s)
  }

  /** No message of `s` is the thread's parent. */
  ghost predicate ExcludesId(s: seq<Message>, parentId: int) {
    forall i :: 0 <= i < |s| ==> s[i].id != parentId
  }

  /**
   * The reply list built from a successful fetch (ThreadView.tsx:50-55): the
   * parent message is dropped, every other fetched message is kept with its
   * multiplicity, and the list is in creation order.
   */
  function FetchedReplies(fetched: seq<Message>, parentId: int): (r: seq<Message>)
    ensures Sorted(r)
    ensures ExcludesId(r, parentId)
    ensures forall m :: multiset(r)[m] == if m.id != parentId then multiset(fetched)[m] else 0
  {
    var p := OtherThan(parentId);
    var kept := WithoutId(fetched, parentId);
    var r := SortByCreated(kept);
    forall i | 0 <= i < |r| ensures r[i].id != parentId {
      assert r[i] in multiset(kept);
      var j :| 0 <= j < |kept| && kept[j] == r[i];
      assert p(kept[j]);
    }
    forall m ensures multiset(r)[m] == if m.id != parentId then multiset(fetched)[m] else 0 {
      Seqs.FilterCount(p, fetched, m);
    }
    r
  }

  /** A live reply is for this thread and is not the parent message itself (ThreadView.tsx:66). */
  predicate AcceptsReply(threadId: int, parentId: int, m: Message) {
    m.threadId == Some(threadId) && m.id != parentId
  }

  /**
   * Merging a `thread_message` event (ThreadView.tsx:66-75): a reply for
   * another thread, or the parent message, leaves the list as it is;
   * otherwise the message is appended unless its id is already present, and
   * the whole list is re-sorted.
   */
  function MergeReply(prev: seq<Message>, threadId: int, parentId: int, m: Message): (r: seq<Message>)
    ensures !AcceptsReply(threadId, parentId, m) ==> r == prev
    ensures AcceptsReply(threadId, parentId, m) ==> Sorted(r) && HasId(r, m.id)
    ensures AcceptsReply(threadId, parentId, m) && HasId(prev, m.id) ==> multiset(r) == multiset(prev)
    ensures AcceptsReply(threadId, parentId, m) && !HasId(prev, m.id) ==> multiset(r) == multiset(prev) + multiset{m}
    ensures Sorted(prev) && HasId(prev, m.id) ==> r == prev
    ensures Sorted(prev) && AcceptsReply(threadId, parentId, m) && !HasId(prev, m.id) ==> r == InsertByCreated(prev, m)
    ensures ExcludesId(prev, parentId) ==> ExcludesId(r, parentId)
  {
    if !AcceptsReply(threadId, parentId, m) then prev
    else
      var grown := if HasId(prev, m.id) then prev else prev + [m];
      MergeReplyFacts(prev, parentId, m, grown);
      SortByCreated(grown)
  }

  /** What sorting the grown list gives, case by case. */
  lemma MergeReplyFacts(prev: seq<Message>, parentId: int, m: Message, grown: seq<Message>)
    requires m.id != parentId
    requires grown == if HasId(prev, m.id) then prev else prev + [m]
    ensures HasId(SortByCreated(grown), m.id)
    ensures HasId(prev, m.id) ==> multiset(SortByCreated(grown)) == multiset(prev)
    ensures !HasId(prev, m.id) ==> multiset(SortByCreated(grown)) == multiset(prev) + multiset{m}
    ensures Sorted(prev) && HasId(prev, m.id) ==> SortByCreated(grown) == prev
    ensures Sorted(prev) && !HasId(prev, m.id) ==> SortByCreated(grown) == InsertByCreated(prev, m)
    ensures ExcludesId(prev, parentId) ==> ExcludesId(SortByCreated(grown), parentId)
  {
    if !HasId(prev, m.id) {
      assert grown[..|grown| - 1] == prev;
    }
    if Sorted(prev) { SortSortedIsIdentity(prev); }
    SortedGrownHasId(prev, m, grown);
    SortedGrownExcludes(prev, parentId, m, grown);
  }

  /** After sorting, the grown list still holds a message with the reply's id. */
  lemma SortedGrownHasId(prev: seq<Message>, m: Message, grown: seq<Message>)
    requires grown == if HasId(prev, m.id) then prev else prev + [m]
    ensures HasId(SortByCreated(grown), m.id)
  {
    if !HasId(prev, m.id) {
      assert grown[|prev|] == m;
    }
    PermutationHasId(grown, SortByCreated(grown), m.id);
  }

  /** Two lists with the same messages hold the same ids. */
  lemma PermutationHasId(a: seq<Message>, b: seq<Message>, id: int)
    requires multiset(a) == multiset(b) && HasId(a, id)
    ensures HasId(b, id)
  {
    var k :| 0 <= k < |a| && a[k].id == id;
    assert a[k] in multiset(b);
    var j :| 0 <= j < |b| && b[j] == a[k];
  }

  /** Sorting the grown list cannot bring the parent message in. */
  lemma SortedGrownExcludes(prev: seq<Message>, parentId: int, m: Message, grown: seq<Message>)
    requires m.id != parentId
    requires grown == if HasId(prev, m.id) then prev else prev + [m]
    ensures ExcludesId(prev, parentId) ==> ExcludesId(SortByCreated(grown), parentId)
  {
    var r := SortByCreated(grown);
    if ExcludesId(prev, parentId) {
      forall i | 0 <= i < |r| ensures r[i].id != parentId {
        assert r[i] in multiset(grown);
        var k :| 0 <= k < |grown| && grown[k] == r[i];
        assert k < |prev| || grown[k] == m;
      }
    }
  }

  /** Delivering the same `thread_message` twice has the effect of delivering it once. */
  lemma MergeReplyIdempotent(prev: seq<Message>, threadId: int, parentId: int, m: Message)
    ensures MergeReply(MergeReply(prev, threadId, parentId, m), threadId, parentId, m)
         == MergeReply(prev, threadId, parentId, m)
  {
    var once := MergeReply(prev, threadId, parentId, m);
    if AcceptsReply(threadId, parentId, m) {
      assert Sorted(once) && HasId(once, m.id);
    }
  }

  /**
   * Applying a `reaction_update` (ThreadView.tsx:82-91): every message with id
   * `messageId` gets exactly the new reaction map; nothing else changes.
   */
  function ReplaceReactions(s: seq<Message>, messageId: int, reactions: Reactions): (r: seq<Message>)
    ensures |r| == |s|
    ensures forall i :: 0 <= i < |s| && s[i].id == messageId ==> r[i].reactions == reactions
    ensures forall i :: 0 <= i < |s| && s[i].id != messageId ==> r[i] == s[i]
    ensures forall i :: 0 <= i < |s| ==> r[i].(reactions := s[i].reactions) == s[i]
  {
    seq(|s|, i requires 0 <= i < |s| => if s[i].id == messageId then s[i].(reactions := reactions) else s[i])
  }

  /** A reaction update keeps the list ordered and keeps the parent out of it. */
  lemma ReplaceReactionsKeepsInvariant(s: seq<Message>, messageId: int, reactions: Reactions, parentId: int)
    requires Sorted(s) && ExcludesId(s, parentId)
    ensures Sorted(ReplaceReactions(s, messageId, reactions))
    ensures ExcludesId(ReplaceReactions(s, messageId, reactions), parentId)
  {
    var r := ReplaceReactions(s, messageId, reactions);
    assert forall i :: 0 <= i < |s| ==> r[i].createdAt == s[i].createdAt && r[i].id == s[i].id by {
      forall i | 0 <= i < |s| ensures r[i].createdAt == s[i].createdAt && r[i].id == s[i].id {
        assert r[i].(reactions := s[i].reactions) == s[i];
      }
    }
  }

  /** The last reaction update for a message wins outright: earlier sets are not merged in. */
  lemma ReplaceReactionsLastWins(s: seq<Message>, messageId: int, first: Reactions, second: Reactions)
    ensures ReplaceReactions(ReplaceReactions(s, messageId, first), messageId, second)
         == ReplaceReactions(s, messageId, second)
  {
    var a := ReplaceReactions(ReplaceReactions(s, messageId, first), messageId, second);
    var b := ReplaceReactions(s, messageId, second);
    forall i | 0 <= i < |s| ensures a[i] == b[i] {
      var mid := ReplaceReactions(s, messageId, first);
      assert mid[i].(reactions := s[i].reactions) == s[i];
    }
  }
}
