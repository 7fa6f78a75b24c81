/**
 * The user list: the search filter over name, e-mail and role, the sort by
 * a lower-cased field, and dropping a deleted user.
 */
module UserList {
  import opened Common
  import opened Text
  import opened Seqs

  /** A user as listed; fields the server left out are `None`. */
  datatype ListedUser = ListedUser(id: string, name: Option<string>, email: Option<string>, userRole: Option<string>)

  /** `field?.toLowerCase().includes(term.toLowerCase())`; an absent field matches nothing. */
  predicate FieldMatches(field: Option<string>, term: string) {
    field.Some? && Contains(Lower(field.value), Lower(term))
  }

  predicate UserMatches(u: ListedUser, term: string) {
    FieldMatches(u.name, term) || FieldMatches(u.email, term) || FieldMatches(u.userRole, term)
  }

  // ---------------------------------------------------------------- string order

  /** JavaScript's `<` on strings: code unit by code unit, a proper prefix first. */
  predicate StrLess(a: string, b: string)
    decreases |a|
  {
    if a == [] then b != []
    else if b == [] then false
    else if a[0] != b[0] then a[0] < b[0]
    else StrLess(a[1..], b[1..])
  }

  lemma {:induction false} StrLessAsymmetric(a: string, b: string)
    ensures !(StrLess(a, b) && StrLess(b, a))
    decreases |a|
  {
    if a != [] && b != [] && a[0] == b[0] {
      StrLessAsymmetric(a[1..], b[1..]);
    }
  }

  lemma {:induction false} StrLessTrichotomy(a: string, b: string)
    ensures StrLess(a, b) || StrLess(b, a) || a == b
    decreases |a|
  {
    if a != [] && b != [] && a[0] == b[0] {
      StrLessTrichotomy(a[1..], b[1..]);
      if a[1..] == b[1..] {
        assert a == [a[0]] + a[1..] && b == [b[0]] + b[1..];
      }
    }
  }

  lemma {:induction false} StrLessTransitive(a: string, b: string, c: string)
    requires StrLess(a, b) && StrLess(b, c)
    ensures StrLess(a, c)
    decreases |a|
  {
    if a != [] && b != [] && c != [] && a[0] == b[0] && b[0] == c[0] {
      StrLessTransitive(a[1..], b[1..], c[1..]);
    }
  }

  /** `!(b < a)`: the two strings may stand in this order in an ascending list. */
  predicate StrAtMost(a: string, b: string) {
    !StrLess(b, a)
  }

  lemma StrAtMostTotal(a: string, b: string)
    ensures StrAtMost(a, b) || StrAtMost(b, a)
  {
    StrLessAsymmetric(a, b);
  }

  lemma StrAtMostTransitive(a: string, b: string, c: string)
    requires StrAtMost(a, b) && StrAtMost(b, c)
    ensures StrAtMost(a, c)
  {
    StrLessTrichotomy(a, b);
    if StrLess(c, a) {
      if StrLess(a, b) {
        StrLessTransitive(c, a, b);
      }
      assert false;
    }
  }

  // ---------------------------------------------------------------- sort

  datatype SortField = ByName | ByEmail
  datatype Direction = Asc | Desc

  /** `a[sortField]?.toLowerCase() || ''`. */
  function SortKey(u: ListedUser, field: SortField): string {
    var v := if field == ByName then u.name else u.email;
    if v.Some? then Lower(v.value) else ""
  }

  /** The comparator does not put `u` after `v`. */
  predicate Precedes(u: ListedUser, v: ListedUser, field: SortField, dir: Direction) {
    if dir == Asc then StrAtMost(SortKey(u, field), SortKey(v, field))
    else StrAtMost(SortKey(v, field), SortKey(u, field))
  }

  lemma PrecedesTotal(u: ListedUser, v: ListedUser, field: SortField, dir: Direction)
    ensures Precedes(u, v, field, dir) || Precedes(v, u, field, dir)
  {
    StrAtMostTotal(SortKey(u, field), SortKey(v, field));
  }

  lemma PrecedesTransitive(u: ListedUser, v: ListedUser, w: ListedUser, field: SortField, dir: Direction)
    requires Precedes(u, v, field, dir) && Precedes(v, w, field, dir)
    ensures Precedes(u, w, field, dir)
  {
    if dir == Asc {
      StrAtMostTransitive(SortKey(u, field), SortKey(v, field), SortKey(w, field));
    } else {
      StrAtMostTransitive(SortKey(w, field), SortKey(v, field), SortKey(u, field));
    }
  }

  /** Every earlier user precedes every later one. */
  predicate SortedBy(s: seq<ListedUser>, field: SortField, dir: Direction) {
    forall i, j :: 0 <= i < j < |s| ==> Precedes(s[i], s[j], field, dir)
  }

  /** `x` may stand before every user of `s`. */
  predicate PrecedesAll(x: ListedUser, s: seq<ListedUser>, field: SortField, dir: Direction) {
    forall j :: 0 <= j < |s| ==> Precedes(x, s[j], field, dir)
  }

  lemma ConsSorted(x: ListedUser, s: seq<ListedUser>, field: SortField, dir: Direction)
    requires SortedBy(s, field, dir) && PrecedesAll(x, s, field, dir)
    ensures SortedBy([x] + s, field, dir)
  {
    var t := [x] + s;
    forall j | 0 < j < |t| ensures Precedes(t[0], t[j], field, dir) {
      assert t[0] == x && t[j] == s[j - 1];
    }
    forall i, j | 0 < i < j < |t| ensures Precedes(t[i], t[j], field, dir) {
      assert t[i] == s[i - 1] && t[j] == s[j - 1];
    }
  }

  lemma PrecedesAllSameUsers(x: ListedUser, a: seq<ListedUser>, b: seq<ListedUser>, field: SortField, dir: Direction)
    requires multiset(a) == multiset(b) && PrecedesAll(x, b, field, dir)
    ensures PrecedesAll(x, a, field, dir)
  {
    forall j | 0 <= j < |a| ensures Precedes(x, a[j], field, dir) {
      assert a[j] in multiset(b);
      var k :| 0 <= k < |b| && b[k] == a[j];
    }
  }

  lemma InsertFirst(u: ListedUser, s: seq<ListedUser>, field: SortField, dir: Direction)
    requires s != [] && SortedBy(s, field, dir) && Precedes(u, s[0], field, dir)
    ensures SortedBy([u] + s, field, dir)
  {
    forall j | 0 <= j < |s| ensures Precedes(u, s[j], field, dir) {
      if j > 0 {
        PrecedesTransitive(u, s[0], s[j], field, dir);
      }
    }
    ConsSorted(u, s, field, dir);
  }

  lemma InsertLater(u: ListedUser, s: seq<ListedUser>, rest: seq<ListedUser>, field: SortField, dir: Direction)
    requires s != [] && SortedBy(s, field, dir) && !Precedes(u, s[0], field, dir)
    requires SortedBy(rest, field, dir) && multiset(rest) == multiset(s[1..]) + multiset{u}
    ensures SortedBy([s[0]] + rest, field, dir)
  {
    PrecedesTotal(u, s[0], field, dir);
    var t := s[1..] + [u];
    forall j | 0 <= j < |t| ensures Precedes(s[0], t[j], field, dir) {
      if j < |s| - 1 {
        assert t[j] == s[j + 1];
      }
    }
    PrecedesAllSameUsers(s[0], rest, t, field, dir);
    ConsSorted(s[0], rest, field, dir);
  }

  function Insert(u: ListedUser, s: seq<ListedUser>, field: SortField, dir: Direction): (r: seq<ListedUser>)
    requires SortedBy(s, field, dir)
    ensures SortedBy(r, field, dir)
    ensures multiset(r) == multiset(s) + multiset{u}
    decreases |s|
  {
    if s == [] then [u]
    else
      assert s == [s[0]] + s[1..];
      if Precedes(u, s[0], field, dir) then
        InsertFirst(u, s, field, dir);
        [u] + s
      else
        var rest := Insert(u, s[1..], field, dir);
        InsertLater(u, s, rest, field, dir);
        [s[0]] + rest
  }

  /** The users in comparator order, none added and none dropped. */
  function SortUsers(s: seq<ListedUser>, field: SortField, dir: Direction): (r: seq<ListedUser>)
    ensures SortedBy(r, field, dir)
    ensures multiset(r) == multiset(s)
    decreases |s|
  {
    if s == [] then []
    else
      assert s == [s[0]] + s[1..];
      Insert(s[0], SortUsers(s[1..], field, dir), field, dir)
  }

  /** `filteredUsers`: the users matching the search, sorted by the chosen field and direction. */
  function FilteredUsers(users: seq<ListedUser>, term: string, field: SortField, dir: Direction): (r: seq<ListedUser>)
    ensures SortedBy(r, field, dir)
    ensures multiset(r) == multiset(Filter(users, (u: ListedUser) => UserMatches(u, term)))
    ensures forall u :: u in r <==> u in users && UserMatches(u, term)
  {
    var kept := Filter(users, (u: ListedUser) => UserMatches(u, term));
    var r := SortUsers(kept, field, dir);
    assert forall u :: u in r <==> u in multiset(r);
    r
  }

  /** The list as first shown (by name, ascending): users earlier in it have lower-cased names no greater. */
  lemma InitialOrderByName(users: seq<ListedUser>, term: string)
    ensures var r := FilteredUsers(users, term, ByName, Asc);
      forall i, j :: 0 <= i < j < |r| ==> !StrLess(SortKey(r[j], ByName), SortKey(r[i], ByName))
  {
    var r := FilteredUsers(users, term, ByName, Asc);
    forall i, j | 0 <= i < j < |r| ensures !StrLess(SortKey(r[j], ByName), SortKey(r[i], ByName)) {
      assert Precedes(r[i], r[j], ByName, Asc);
    }
  }

  /** An empty search keeps every user, so the list is a reordering of them all. */
  lemma EmptySearchKeepsEveryone(users: seq<ListedUser>, field: SortField, dir: Direction)
    requires forall u :: u in users ==> u.name.Some?
    ensures multiset(FilteredUsers(users, "", field, dir)) == multiset(users)
  {
    var keep := (u: ListedUser) => UserMatches(u, "");
    forall u | u in users ensures keep(u) {
      ContainsEmpty(Lower(u.name.value));
    }
    FilterKeepsAll(users, keep);
  }

  // ---------------------------------------------------------------- delete

  /** `handleDeleteUser(id)`: on success every user with that id goes, the rest keep their order. */
  function AfterDeleteUser(users: seq<ListedUser>, id: string, succeeded: bool): (r: seq<ListedUser>)
    ensures !succeeded ==> r == users
    ensures succeeded ==> forall u :: u in r <==> u in users && u.id != id
    ensures succeeded ==> forall u :: multiset(r)[u] == if u.id != id then multiset(users)[u] else 0
    ensures IsSubsequence(r, users)
  {
    if succeeded then Filter(users, (u: ListedUser) => u.id != id)
    else
      SubsequenceOfSelf(users);
      users
  }
}
