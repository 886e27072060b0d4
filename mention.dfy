/**
 * The @-mention menu (src/components/MentionAutocomplete.tsx): the users whose
 * name or email contains the search term, and a selection cursor that the
 * arrow keys move, Enter or Tab confirm, Escape cancels and hovering sets.
 *
 * Case-insensitive matching lower-cases ASCII letters only.
 */
module MentionAutocomplete {
  import opened Wrappers
  import opened Types
  import opened Text
  import Seqs

  /** `display_name` or `email` contains the term, ignoring case (MentionAutocomplete.tsx:22-23). */
  predicate Matches(term: string, u: User) {
    Includes(Lower(u.displayName), Lower(term)) || Includes(Lower(u.email), Lower(term))
  }

  /** `Matches` as the predicate a filter takes. */
  function MatchesTerm(term: string): User -> bool {
    (u: User) => Matches(term, u)
  }

  /** `filteredUsers` (MentionAutocomplete.tsx:21-24). */
  function FilteredUsers(users: seq<User>, term: string): (r: seq<User>)
    ensures |r| <= |users|
    ensures forall i :: 0 <= i < |r| ==> Matches(term, r[i])
  {
    Seqs.Filter(MatchesTerm(term), users)
  }

  /**
   * A user is listed iff it is in the roster and the lower-cased term occurs
   * in its lower-cased display name or email.
   */
  lemma FilteredUsersMembers(users: seq<User>, term: string, u: User)
    ensures u in FilteredUsers(users, term) <==>
              u in users && (Occurs(Lower(term), Lower(u.displayName)) || Occurs(Lower(term), Lower(u.email)))
  {
    Seqs.FilterMembers(MatchesTerm(term), users, u);
    assert MatchesTerm(term)(u) == Matches(term, u);
  }

  /**
   * The list keeps roster order: each segment of the roster contributes its
   * own matches in place, and a single user stays iff it matches.
   */
  lemma FilteredUsersInOrder(users: seq<User>, more: seq<User>, term: string, u: User)
    ensures FilteredUsers(users + more, term) == FilteredUsers(users, term) + FilteredUsers(more, term)
    ensures FilteredUsers([u], term) == if Matches(term, u) then [u] else []
  {
    Seqs.FilterAppend(MatchesTerm(term), users, more);
    Seqs.FilterSingleton(MatchesTerm(term), u);
  }

  /**
   * Matching ignores ASCII case: upper-casing the term, or a user's display
   * name and email, does not change whether the user matches.
   */
  lemma MatchesIgnoresCase(term: string, u: User)
    ensures Matches(Upper(term), u) == Matches(term, u)
    ensures Matches(term, u.(displayName := Upper(u.displayName), email := Upper(u.email))) == Matches(term, u)
  {
    LowerUpper(term);
    LowerUpper(u.displayName);
    LowerUpper(u.email);
  }

  /** An empty search term matches every user, so the menu lists the whole roster. */
  lemma EmptyTermListsEveryone(users: seq<User>)
    ensures FilteredUsers(users, "") == users
  {
    forall i | 0 <= i < |users| ensures MatchesTerm("")(users[i]) {
      assert OccursAt(Lower(""), Lower(users[i].email), 0);
    }
    Seqs.FilterAll(MatchesTerm(""), users);
  }

  /** The keys the menu reacts to; every other key is `OtherKey`. */
  datatype Key = ArrowDown | ArrowUp | Enter | Tab | Escape | OtherKey(name: string)

  /** What the menu reports through `onSelect`: nothing, `null` (cancel), or a user. */
  datatype Choice = NoChoice | Cancel | Pick(user: User)

  /** The cursor after a key, the report made, and whether the key was swallowed (default prevented). */
  datatype KeyResult = KeyResult(index: nat, choice: Choice, consumed: bool)

  /**
   * `handleKeyDown` (MentionAutocomplete.tsx:34-65). Keys do nothing while the
   * menu is hidden or empty. ArrowDown moves towards index 0 and ArrowUp
   * towards the last entry (the list is drawn bottom-up), each stopping at
   * its end; Enter and Tab pick the entry under the cursor when there is one
   * and otherwise let the key through; Escape cancels.
   */
  function HandleKey(key: Key, index: nat, filtered: seq<User>, visible: bool): (r: KeyResult)
    ensures !visible || filtered == [] ==> r == KeyResult(index, NoChoice, false)
    ensures index < |filtered| ==> r.index < |filtered|
    ensures r.index != index ==> visible && (key.ArrowDown? || key.ArrowUp?)
    ensures visible && filtered != [] && key.ArrowDown? ==>
              r == KeyResult(if index > 0 then index - 1 else index, NoChoice, true)
    ensures visible && filtered != [] && key.ArrowUp? ==>
              r == KeyResult(if index < |filtered| - 1 then index + 1 else index, NoChoice, true)
    ensures visible && filtered != [] && (key.Enter? || key.Tab?) ==>
              if index < |filtered| then r == KeyResult(index, Pick(filtered[index]), true)
              else r == KeyResult(index, NoChoice, false)
    ensures visible && filtered != [] && key.Escape? ==> r == KeyResult(index, Cancel, true)
    ensures key.OtherKey? ==> r == KeyResult(index, NoChoice, false)
  {
    if !visible || |filtered| == 0 then KeyResult(index, NoChoice, false)
    else
      match key
      case ArrowDown => KeyResult(if index > 0 then index - 1 else index, NoChoice, true)
      case ArrowUp => KeyResult(if index < |filtered| - 1 then index + 1 else index, NoChoice, true)
      case Enter => if index < |filtered| then KeyResult(index, Pick(filtered[index]), true) else KeyResult(index, NoChoice, false)
      case Tab => if index < |filtered| then KeyResult(index, Pick(filtered[index]), true) else KeyResult(index, NoChoice, false)
      case Escape => KeyResult(index, Cancel, true)
      case OtherKey(_) => KeyResult(index, NoChoice, false)
  }

  /** The cursor after a run of keys on a fixed, visible list. */
  function CursorAfter(keys: seq<Key>, index: nat, filtered: seq<User>): nat
    decreases |keys|
  {
    if keys == [] then index else CursorAfter(keys[1..], HandleKey(keys[0], index, filtered, true).index, filtered)
  }

  /** A cursor that starts on an entry stays on an entry, whatever keys follow. */
  lemma {:induction false} CursorStaysInRange(keys: seq<Key>, index: nat, filtered: seq<User>)
    requires index < |filtered|
    ensures CursorAfter(keys, index, filtered) < |filtered|
    decreases |keys|
  {
    if keys != [] {
      CursorStaysInRange(keys[1..], HandleKey(keys[0], index, filtered, true).index, filtered);
    }
  }

  /** `k` presses of ArrowUp move the cursor `k` entries, stopping at the last one. */
  lemma {:induction false} ArrowUpSaturates(k: nat, index: nat, filtered: seq<User>)
    requires index < |filtered|
    ensures CursorAfter(seq(k, _ => ArrowUp), index, filtered) ==
            if index + k < |filtered| then index + k else |filtered| - 1
    decreases k
  {
    if k > 0 {
      var keys := seq(k, _ => ArrowUp);
      assert keys[0] == ArrowUp;
      assert keys[1..] == seq(k - 1, _ => ArrowUp);
      ArrowUpSaturates(k - 1, HandleKey(ArrowUp, index, filtered, true).index, filtered);
    }
  }

  /** `k` presses of ArrowDown move the cursor `k` entries towards 0, stopping there. */
  lemma {:induction false} ArrowDownSaturates(k: nat, index: nat, filtered: seq<User>)
    requires filtered != []
    ensures CursorAfter(seq(k, _ => ArrowDown), index, filtered) == if index >= k then index - k else 0
    decreases k
  {
    if k > 0 {
      var keys := seq(k, _ => ArrowDown);
      assert keys[0] == ArrowDown;
      assert keys[1..] == seq(k - 1, _ => ArrowDown);
      ArrowDownSaturates(k - 1, HandleKey(ArrowDown, index, filtered, true).index, filtered);
    }
  }

  /** One rendered entry: the user, the name shown, and whether it is highlighted. */
  datatype Row = Row(user: User, shown: string, highlighted: bool)

  /** The menu: its props (users, search term, visibility) and the cursor state. */
  class Menu {
    var users: seq<User>
    var searchTerm: string
    var visible: bool
    var selectedIndex: nat

    /** The entries the menu offers for the current props. */
    function Filtered(): seq<User>
      reads this
    {
      FilteredUsers(users, searchTerm)
    }

    /** A mounted menu starts with the cursor on the first entry (MentionAutocomplete.tsx:19). */
    constructor (users: seq<User>, searchTerm: string, visible: bool)
      ensures this.users == users && this.searchTerm == searchTerm && this.visible == visible
      ensures selectedIndex == 0
    {
      this.users := users;
      this.searchTerm := searchTerm;
      this.visible := visible;
      selectedIndex := 0;
    }

    /** A new search term puts the cursor back on the first entry (MentionAutocomplete.tsx:26-29). */
    method SetSearchTerm(term: string)
      modifies this`searchTerm, this`selectedIndex
      ensures searchTerm == term
      ensures selectedIndex == if term != old(searchTerm) then 0 else old(selectedIndex)
    {
      if term != searchTerm {
        selectedIndex := 0;
      }
      searchTerm := term;
    }

    /** A new roster; the cursor is not reset. */
    method SetUsers(users: seq<User>)
      modifies this`users
      ensures this.users == users
    {
      this.users := users;
    }

    /** The menu is shown or hidden; the cursor is not reset. */
    method SetVisible(visible: bool)
      modifies this`visible
      ensures this.visible == visible
    {
      this.visible := visible;
    }

    /** A key press while the menu listens (MentionAutocomplete.tsx:31-70). */
    method KeyDown(key: Key) returns (choice: Choice, consumed: bool)
      modifies this`selectedIndex
      ensures KeyResult(selectedIndex, choice, consumed) == HandleKey(key, old(selectedIndex), Filtered(), visible)
    {
      var r := HandleKey(key, selectedIndex, Filtered(), visible);
      selectedIndex, choice, consumed := r.index, r.choice, r.consumed;
    }

    /** The mouse enters row `i`, which exists only while the menu is drawn (MentionAutocomplete.tsx:94). */
    method Hover(i: nat)
      requires visible && i < |Filtered()|
      modifies this`selectedIndex
      ensures selectedIndex == i
    {
      selectedIndex := i;
    }

    /** A click on row `i` picks the user that row shows (MentionAutocomplete.tsx:89-93). */
    function Click(i: nat): (c: Choice)
      reads this
      requires visible && i < |Filtered()|
      ensures Rows().Some? && c == Pick(Rows().value[i].user)
    {
      Pick(Filtered()[i])
    }

    /**
     * What is drawn (MentionAutocomplete.tsx:72-111): nothing when hidden or
     * when no user matches; otherwise one row per match, in order, showing
     * the display name or else the email, with the cursor's row highlighted.
     */
    function Rows(): (r: Option<seq<Row>>)
      reads this
      ensures r == None <==> !visible || Filtered() == []
      ensures r.Some? ==> |r.value| == |Filtered()|
      ensures r.Some? ==> forall i :: 0 <= i < |r.value| ==>
                r.value[i] == Row(Filtered()[i], ShownName(Filtered()[i]), i == selectedIndex)
    {
      var f, k := Filtered(), selectedIndex;
      if !visible || f == [] then None
      else Some(seq(|f|, i requires 0 <= i < |f| => Row(f[i], ShownName(f[i]), i == k)))
    }
  }
}
