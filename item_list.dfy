/**
 * The product list: the shortened description shown in a row, the initials
 * shown when a product's picture does not load, and dropping a deleted product.
 */
module ItemList {
  import opened Common
  import opened Text
  import opened Seqs

  /** A product as listed; only the fields these operations read. */
  datatype ListedItem = ListedItem(id: string, name: string, description: Option<string>)

  const NoDescription := "No description"

  // ---------------------------------------------------------------- description

  /**
   * `trimDescription(description, maxLength)`: a placeholder for an empty or
   * absent text, the text itself when it fits, otherwise its first
   * `maxLength` characters and an ellipsis.
   */
  function TrimDescription(description: Option<string>, maxLength: nat): (r: string)
    ensures description.None? || description.value == "" ==> r == NoDescription
    ensures description.Some? && description.value != "" && |description.value| <= maxLength ==> r == description.value
    ensures description.Some? && |description.value| > maxLength ==>
      |r| == maxLength + 3 && r[..maxLength] == description.value[..maxLength] && r[maxLength..] == "..."
  {
    if description.None? || description.value == "" then NoDescription
    else if |description.value| <= maxLength then description.value
    else description.value[..maxLength] + "..."
  }

  /** A shown description never runs past `maxLength` characters and the ellipsis, the placeholder aside. */
  lemma TrimmedLength(description: Option<string>, maxLength: nat)
    ensures TrimDescription(description, maxLength) == NoDescription
      || |TrimDescription(description, maxLength)| <= maxLength + 3
  {
  }

  /** Shortening a shown description again changes nothing, once the limit leaves room for the placeholder. */
  lemma TrimIdempotent(description: Option<string>, maxLength: nat)
    requires maxLength >= |NoDescription|
    ensures TrimDescription(Some(TrimDescription(description, maxLength)), maxLength)
      == TrimDescription(description, maxLength)
  {
    var r := TrimDescription(description, maxLength);
    if description.Some? && |description.value| > maxLength {
      assert r[..maxLength] + "..." == r;
    }
  }

  // ---------------------------------------------------------------- initials

  /** `words.map(word => word[0]).join('')`: an empty word has no first character and adds nothing. */
  function Heads(words: seq<string>): (r: string)
    ensures |r| <= |words|
  {
    if words == [] then ""
    else (if words[0] == "" then "" else [words[0][0]]) + Heads(words[1..])
  }

  lemma {:induction false} HeadsConcat(x: seq<string>, y: seq<string>)
    ensures Heads(x + y) == Heads(x) + Heads(y)
    decreases |x|
  {
    if x == [] {
      assert x + y == y;
    } else {
      assert (x + y)[0] == x[0];
      assert (x + y)[1..] == x[1..] + y;
      HeadsConcat(x[1..], y);
    }
  }

  /** The initials shown for a product whose picture fails: the first letter of each space-separated word, upper-cased. */
  function Initials(name: string): (r: string)
    ensures |r| <= |Split(name, " ")|
  {
    Upper(Heads(Split(name, " ")))
  }

  lemma UpperConcat(a: string, b: string)
    ensures Upper(a + b) == Upper(a) + Upper(b)
  {
    assert forall i :: 0 <= i < |a| ==> (a + b)[i] == a[i];
    assert forall i :: 0 <= i < |b| ==> (a + b)[|a| + i] == b[i];
  }

  /** The initials of two names joined by a space are the initials of each, one after the other. */
  lemma InitialsJoin(a: string, b: string)
    ensures Initials(a + " " + b) == Initials(a) + Initials(b)
  {
    SplitCharConcat(a, ' ', b, "");
    assert a + " " + b == a + [' '] + b;
    HeadsConcat(Split(a, " "), Split(b, " "));
    UpperConcat(Heads(Split(a, " ")), Heads(Split(b, " ")));
  }

  /** A single word gives its first letter upper-cased; an empty name gives no initials. */
  lemma InitialsWord(w: string)
    requires ' ' !in w
    ensures Initials(w) == if w == "" then "" else [UpperChar(w[0])]
  {
    SplitCharFree(w, ' ');
    assert Split(w, " ") == [w];
    assert [w][1..] == [];
  }

  // ---------------------------------------------------------------- delete

  /** `handleDelete(id)`: once confirmed and deleted on the server, every product with that id goes. */
  function AfterDelete(items: seq<ListedItem>, id: string, confirmed: bool, deleted: bool): (r: seq<ListedItem>)
    ensures !(confirmed && deleted) ==> r == items
    ensures confirmed && deleted ==> forall x :: x in r <==> x in items && x.id != id
    ensures confirmed && deleted ==> forall x :: multiset(r)[x] == if x.id != id then multiset(items)[x] else 0
    ensures IsSubsequence(r, items)
  {
    if confirmed && deleted then Filter(items, (x: ListedItem) => x.id != id)
    else
      SubsequenceOfSelf(items);
      items
  }

  /** A confirmed delete removes exactly the products with that id: the list shrinks by their number. */
  lemma {:induction false} DeleteRemovesExactlyMatches(items: seq<ListedItem>, id: string)
    ensures |AfterDelete(items, id, true, true)| + |Filter(items, (x: ListedItem) => x.id == id)| == |items|
    decreases |items|
  {
    if items != [] {
      DeleteRemovesExactlyMatches(items[1..], id);
    }
  }
}
