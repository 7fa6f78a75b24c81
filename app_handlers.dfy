/**
 * The application state hook: the current view, the item and quotation
 * lists with their add, update and delete handlers, and the records being
 * edited, which a change of view clears unless it lands on their form.
 */
module AppHandlers {
  import opened Common
  import opened JsValues
  import opened Seqs

  /** An item or quotation as the hook keeps it: its `id` and the rest of the record. */
  datatype Entry = Entry(id: int, data: Json)

  /** `prev.map(x => x.id === e.id ? e : x)`: every entry with `e`'s id becomes `e`. */
  function UpdateById(s: seq<Entry>, e: Entry): (r: seq<Entry>)
    ensures |r| == |s|
    ensures forall j :: 0 <= j < |s| ==> r[j] == if s[j].id == e.id then e else s[j]
  {
    ReplaceWhere(s, (x: Entry) => x.id == e.id, e)
  }

  /** The filter's predicate: entries with another id. */
  function OtherId(id: int): Entry -> bool {
    (x: Entry) => x.id != id
  }

  /** `prev.filter(x => x.id !== id)`. */
  function DeleteById(s: seq<Entry>, id: int): (r: seq<Entry>)
    ensures forall x :: x in r <==> x in s && x.id != id
    ensures forall x :: multiset(r)[x] == if x.id != id then multiset(s)[x] else 0
    ensures IsSubsequence(r, s)
  {
    Filter(s, OtherId(id))
  }

  /** An update keeps every position's id, so the list still holds the same records by id. */
  lemma UpdateKeepsIds(s: seq<Entry>, e: Entry)
    ensures forall j :: 0 <= j < |s| ==> UpdateById(s, e)[j].id == s[j].id
  {
  }

  /** After a delete no entry has the id, and deleting again changes nothing. */
  lemma {:induction false} DeleteIdempotent(s: seq<Entry>, id: int)
    ensures DeleteById(DeleteById(s, id), id) == DeleteById(s, id)
    decreases |s|
  {
    if s != [] {
      DeleteIdempotent(s[1..], id);
    }
  }

  /** Adding an entry with a fresh id and then deleting that id gives the list back. */
  lemma DeleteUndoesAdd(s: seq<Entry>, e: Entry)
    requires forall x :: x in s ==> x.id != e.id
    ensures DeleteById(s + [e], e.id) == s
  {
    var keep := OtherId(e.id);
    FilterConcat(s, [e], keep);
    forall i | 0 <= i < |s| ensures keep(s[i]) {
      assert s[i] in s;
    }
    FilterKeepsAll(s, keep);
    assert [e][1..] == [];
    assert Filter([e], keep) == [];
  }

  class AppState {
    var view: string
    var items: seq<Entry>
    var quotations: seq<Entry>
    var itemToEdit: Option<Entry>
    var quoteToEdit: Option<Entry>

    /** A record to edit is only held while its form is the view. */
    predicate EditTargetsMatchView()
      reads this
    {
      (view != "edit-item" ==> itemToEdit.None?) && (view != "edit-quotation" ==> quoteToEdit.None?)
    }

    /** The hook's initial state; the seed lists are parameters. */
    constructor (initialItems: seq<Entry>, initialQuotations: seq<Entry>)
      ensures view == "dashboard" && items == initialItems && quotations == initialQuotations
      ensures itemToEdit.None? && quoteToEdit.None?
      ensures EditTargetsMatchView()
    {
      view := "dashboard";
      items := initialItems;
      quotations := initialQuotations;
      itemToEdit := None;
      quoteToEdit := None;
    }

    /**
     * `setView(v)` followed by the effect on `[view]`, which reruns only when
     * the view actually changes: setting the view already shown keeps both
     * records being edited.
     */
    method SetView(v: string)
      modifies this
      ensures view == v && items == old(items) && quotations == old(quotations)
      ensures v == old(view) ==> itemToEdit == old(itemToEdit) && quoteToEdit == old(quoteToEdit)
      ensures v != old(view) ==> itemToEdit == if v == "edit-item" then old(itemToEdit) else None
      ensures v != old(view) ==> quoteToEdit == if v == "edit-quotation" then old(quoteToEdit) else None
      ensures v != old(view) ==> EditTargetsMatchView()
      ensures old(EditTargetsMatchView()) ==> EditTargetsMatchView()
    {
      if v != view {
        view := v;
        if view != "edit-item" {
          itemToEdit := None;
        }
        if view != "edit-quotation" {
          quoteToEdit := None;
        }
      }
    }

    method SetItemToEdit(e: Option<Entry>)
      modifies this
      ensures itemToEdit == e
      ensures view == old(view) && items == old(items) && quotations == old(quotations) && quoteToEdit == old(quoteToEdit)
    {
      itemToEdit := e;
    }

    method SetQuoteToEdit(e: Option<Entry>)
      modifies this
      ensures quoteToEdit == e
      ensures view == old(view) && items == old(items) && quotations == old(quotations) && itemToEdit == old(itemToEdit)
    {
      quoteToEdit := e;
    }

    method AddItem(e: Entry)
      modifies this
      ensures items == old(items) + [e]
      ensures view == old(view) && quotations == old(quotations)
      ensures itemToEdit == old(itemToEdit) && quoteToEdit == old(quoteToEdit)
    {
      items := items + [e];
    }

    method UpdateItem(e: Entry)
      modifies this
      ensures items == UpdateById(old(items), e) && itemToEdit.None?
      ensures view == old(view) && quotations == old(quotations) && quoteToEdit == old(quoteToEdit)
    {
      items := UpdateById(items, e);
      itemToEdit := None;
    }

    method DeleteItem(id: int)
      modifies this
      ensures items == DeleteById(old(items), id)
      ensures view == old(view) && quotations == old(quotations)
      ensures itemToEdit == old(itemToEdit) && quoteToEdit == old(quoteToEdit)
    {
      items := DeleteById(items, id);
    }

    method AddQuotation(q: Entry)
      modifies this
      ensures quotations == old(quotations) + [q]
      ensures view == old(view) && items == old(items)
      ensures itemToEdit == old(itemToEdit) && quoteToEdit == old(quoteToEdit)
    {
      quotations := quotations + [q];
    }

    method UpdateQuotation(q: Entry)
      modifies this
      ensures quotations == UpdateById(old(quotations), q) && quoteToEdit.None?
      ensures view == old(view) && items == old(items) && itemToEdit == old(itemToEdit)
    {
      quotations := UpdateById(quotations, q);
      quoteToEdit := None;
    }

    method DeleteQuotation(id: int)
      modifies this
      ensures quotations == DeleteById(old(quotations), id)
      ensures view == old(view) && items == old(items)
      ensures itemToEdit == old(itemToEdit) && quoteToEdit == old(quoteToEdit)
    {
      quotations := DeleteById(quotations, id);
    }
  }
}
