/**
 * The customer form: its fields as a JSON object, the change handler for
 * plain, dotted (`parent.child`) and numeric fields, the effect that keeps
 * the pending amount at `max(0, total - received)`, and the edit hydration.
 */
module CustomerForm {
  import opened Common
  import opened Text
  import opened JsValues

  type Form = map<string, Json>

  const NumericFields: seq<string> := ["totalAmount", "amountReceived", "amountPending"]

  const BlankAddress := JObj(map["city" := JStr(""), "state" := JStr(""), "location" := JStr("")])
  const BlankContact := JObj(map["name" := JStr(""), "position" := JStr("")])

  /** The defaults of the form's top-level fields other than the two nested objects. */
  const FlatDefaults: map<string, Json> := map[
    "name" := JStr(""), "email" := JStr(""), "phone" := JStr(""),
    "amountPending" := JNum(0.0), "amountReceived" := JNum(0.0), "totalAmount" := JNum(0.0),
    "paymentMethod" := JStr("online"), "status" := JStr("active"),
    "notes" := JStr(""), "customerType" := JStr("individual"), "accountNumber" := JStr("")]

  /** The form of a new customer. */
  const InitialForm: Form := FlatDefaults["address" := BlankAddress]["contactPerson" := BlankContact]

  // ---------------------------------------------------------------- pending amount

  /** A money field read as a number; a field that holds no number counts as zero. */
  function Amount(f: Form, key: string): real {
    if key in f && f[key].JNum? then f[key].n else 0.0
  }

  /** `Math.max(0, total - received)`. */
  function Pending(total: real, received: real): (p: real)
    ensures p >= 0.0 && p >= total - received
    ensures p == 0.0 || p == total - received
    ensures received <= total ==> p == total - received
  {
    Max(0.0, total - received)
  }

  /** The form with its pending amount recomputed; no other field changes. */
  function WithPending(f: Form): (g: Form)
    ensures "amountPending" in g && g["amountPending"] == JNum(Pending(Amount(f, "totalAmount"), Amount(f, "amountReceived")))
    ensures forall k :: k != "amountPending" ==> (k in g <==> k in f)
    ensures forall k :: k != "amountPending" && k in f ==> g[k] == f[k]
  {
    f["amountPending" := JNum(Pending(Amount(f, "totalAmount"), Amount(f, "amountReceived")))]
  }

  function Get(f: Form, key: string): Option<Json> {
    if key in f then Some(f[key]) else None
  }

  /** The effect on `[totalAmount, amountReceived]`: it reruns only when one of them changed. */
  function RunPendingEffect(prev: Form, next: Form): (g: Form)
    ensures Get(prev, "totalAmount") != Get(next, "totalAmount") || Get(prev, "amountReceived") != Get(next, "amountReceived")
      ==> g == WithPending(next)
    ensures Get(prev, "totalAmount") == Get(next, "totalAmount") && Get(prev, "amountReceived") == Get(next, "amountReceived")
      ==> g == next
  {
    if Get(prev, "totalAmount") != Get(next, "totalAmount") || Get(prev, "amountReceived") != Get(next, "amountReceived")
    then WithPending(next)
    else next
  }

  // ---------------------------------------------------------------- change handler

  /** `{...prev[parent]}`: the child fields of an object, none for anything else. */
  function ChildFields(f: Form, parent: string): map<string, Json> {
    if parent in f && f[parent].JObj? then f[parent].fields else map[]
  }

  /**
   * `handleChange` for the input named `name` holding text `value`: a dotted
   * name sets one child of its parent object, a money field stores
   * `parseFloat(value) || 0`, and any other field stores the text.
   */
  function HandleChange(f: Form, name: string, value: string): (g: Form)
    ensures !Occurs(name, ".") && name in NumericFields ==> g == f[name := JNum(NumberOr(Some(JStr(value)), 0.0))]
    ensures !Occurs(name, ".") && name !in NumericFields ==> g == f[name := JStr(value)]
  {
    var parts := Split(name, ".");
    SplitCount(name, ".", "");
    if |parts| >= 2 then
      var parent, child := parts[0], parts[1];
      f[parent := JObj(ChildFields(f, parent)[child := JStr(value)])]
    else if name in NumericFields then f[name := JNum(NumberOr(Some(JStr(value)), 0.0))]
    else f[name := JStr(value)]
  }

  lemma SplitDotted(p: string, c: string)
    requires '.' !in p && '.' !in c
    ensures Split(p + "." + c, ".") == [p, c]
  {
    assert p + "." + c == p + ['.'] + c;
    SplitCharConcat(p, '.', c, "");
    SplitCharFree(p, '.');
    SplitCharFree(c, '.');
  }

  /** A dotted name `p.c` changes child `c` of `p` only: its siblings and every other field stay. */
  lemma NestedChangeKeepsSiblings(f: Form, p: string, c: string, value: string)
    requires '.' !in p && '.' !in c
    ensures var g := HandleChange(f, p + "." + c, value);
      p in g && g[p].JObj? && c in g[p].fields && g[p].fields[c] == JStr(value)
      && (forall k :: k != c && k in ChildFields(f, p) ==> k in g[p].fields && g[p].fields[k] == ChildFields(f, p)[k])
      && (forall k :: k != p ==> (k in g <==> k in f))
      && (forall k :: k != p && k in f ==> g[k] == f[k])
  {
    SplitDotted(p, c);
  }

  lemma NoDot(name: string)
    requires '.' !in name
    ensures !Occurs(name, ".")
  {
    forall k | 0 <= k && k + 1 <= |name| ensures !OccursAt(name, ".", k) {
      assert name[k..k + 1] == [name[k]];
      assert name[k] in name;
    }
  }

  /** The pending amount is the clamp of the form's own total and received amounts. */
  predicate PendingSettled(f: Form) {
    "amountPending" in f && f["amountPending"] == JNum(Pending(Amount(f, "totalAmount"), Amount(f, "amountReceived")))
  }

  /** The three money fields of a new customer are all zero. */
  lemma InitialAmounts()
    ensures "totalAmount" in InitialForm && InitialForm["totalAmount"] == JNum(0.0)
    ensures "amountReceived" in InitialForm && InitialForm["amountReceived"] == JNum(0.0)
    ensures "amountPending" in InitialForm && InitialForm["amountPending"] == JNum(0.0)
  {
    assert FlatDefaults["totalAmount"] == JNum(0.0);
    assert FlatDefaults["amountReceived"] == JNum(0.0);
    assert FlatDefaults["amountPending"] == JNum(0.0);
  }

  lemma InitialSettled()
    ensures PendingSettled(InitialForm)
  {
    InitialAmounts();
  }

  lemma SameGetSameAmount(f: Form, g: Form, key: string)
    requires Get(f, key) == Get(g, key)
    ensures Amount(f, key) == Amount(g, key)
  {
  }

  /** The effect leaves a settled form settled whatever the edit, as long as the pending field is not edited itself. */
  lemma EffectSettles(f: Form, g: Form)
    requires PendingSettled(f)
    requires Get(f, "amountPending") == Get(g, "amountPending")
    ensures PendingSettled(RunPendingEffect(f, g))
  {
    if Get(f, "totalAmount") == Get(g, "totalAmount") && Get(f, "amountReceived") == Get(g, "amountReceived") {
      SameGetSameAmount(f, g, "totalAmount");
      SameGetSameAmount(f, g, "amountReceived");
    }
  }

  /**
   * Typing a money figure into a settled form stores the parsed figure and
   * leaves the form settled, so the pending amount is never negative.
   */
  lemma MoneyEditSettlesPending(f: Form, name: string, value: string)
    requires PendingSettled(f)
    requires name == "totalAmount" || name == "amountReceived"
    ensures var g := RunPendingEffect(f, HandleChange(f, name, value));
      PendingSettled(g) && name in g && g[name] == JNum(NumberOr(Some(JStr(value)), 0.0))
      && g["amountPending"].n >= 0.0
  {
    assert name in NumericFields;
    NoDot(name);
    var g := HandleChange(f, name, value);
    assert g == f[name := JNum(NumberOr(Some(JStr(value)), 0.0))];
    assert name != "amountPending";
    assert Get(f, "amountPending") == Get(g, "amountPending");
    EffectSettles(f, g);
    var h := RunPendingEffect(f, g);
    if h == g {
      assert h[name] == g[name];
    } else {
      assert h == WithPending(g);
      assert h[name] == g[name];
    }
  }

  // ---------------------------------------------------------------- hydration

  /** `{ city: c.address?.city || '', ... }` for a nested object with the given blank children. */
  function HydrateChildren(c: Json, parent: string, blank: map<string, Json>): (g: Json)
    ensures g.JObj? && g.fields.Keys == blank.Keys
    ensures forall k :: k in blank ==> g.fields[k] == OrElse(Prop(Prop(Some(c), parent), k), blank[k])
  {
    JObj(map k | k in blank :: OrElse(Prop(Prop(Some(c), parent), k), blank[k]))
  }

  /** The form filled from the customer being edited, each field `x || default`. */
  function Hydrate(c: Json): (g: Form)
    ensures g.Keys == InitialForm.Keys
    ensures forall k :: k in InitialForm && k != "address" && k != "contactPerson" ==>
      g[k] == OrElse(Prop(Some(c), k), InitialForm[k])
    ensures "address" in g && g["address"] == HydrateChildren(c, "address", BlankAddress.fields)
    ensures "contactPerson" in g && g["contactPerson"] == HydrateChildren(c, "contactPerson", BlankContact.fields)
  {
    map k | k in InitialForm ::
      if k == "address" then HydrateChildren(c, "address", BlankAddress.fields)
      else if k == "contactPerson" then HydrateChildren(c, "contactPerson", BlankContact.fields)
      else OrElse(Prop(Some(c), k), InitialForm[k])
  }

  /** Editing a record that holds nothing gives the blank form. */
  lemma HydrateEmpty()
    ensures Hydrate(JObj(map[])) == InitialForm
  {
    var g := Hydrate(JObj(map[]));
    assert HydrateChildren(JObj(map[]), "address", BlankAddress.fields) == BlankAddress;
    assert HydrateChildren(JObj(map[]), "contactPerson", BlankContact.fields) == BlankContact;
    forall k | k in InitialForm && k != "address" && k != "contactPerson" ensures g[k] == InitialForm[k] {
      assert !Truthy(Prop(Some(JObj(map[])), k));
    }
  }

  /**
   * When the edited record's total and received amounts are both zero or
   * absent, the effect does not rerun after hydration, so the stored pending
   * amount is shown as it is, even when it is not the clamp.
   */
  lemma StoredPendingKeptWhenAmountsUnset(pending: real)
    requires pending != 0.0
    ensures var g := RunPendingEffect(InitialForm, Hydrate(JObj(map["amountPending" := JNum(pending)])));
      g["amountPending"] == JNum(pending) && Pending(Amount(g, "totalAmount"), Amount(g, "amountReceived")) == 0.0
  {
    var c := JObj(map["amountPending" := JNum(pending)]);
    var h := Hydrate(c);
    InitialAmounts();
    assert Prop(Some(c), "totalAmount") == None && Prop(Some(c), "amountReceived") == None;
    assert h["totalAmount"] == JNum(0.0) && h["amountReceived"] == JNum(0.0);
    assert Prop(Some(c), "amountPending") == Some(JNum(pending));
    assert h["amountPending"] == JNum(pending);
    assert Get(InitialForm, "totalAmount") == Get(h, "totalAmount");
    assert Get(InitialForm, "amountReceived") == Get(h, "amountReceived");
    assert RunPendingEffect(InitialForm, h) == h;
  }
}
