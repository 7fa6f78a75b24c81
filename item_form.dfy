/**
 * The product form: the field an input's id writes, the switch between a
 * product and a service, the picked picture, and the checks submit makes
 * before it sends the product.
 */
module ItemForm {
  import opened Common
  import opened Text
  import opened JsValues
  import Images

  /** The form's fields by name, and the picture picked for upload. */
  datatype ItemState = ItemState(fields: map<string, Json>, image: Option<Images.ImageFile>)

  /** The form of a new product. */
  const InitialState := ItemState(map[
    "name" := JStr(""), "type" := JStr("product"), "unit" := JStr("nos"), "quantity" := JStr(""),
    "rate" := JStr(""), "description" := JStr(""), "imagePrompt" := JStr(""), "imageUrl" := JStr("")], None)

  function Get(st: ItemState, key: string): Option<Json> {
    if key in st.fields then Some(st.fields[key]) else None
  }

  // ---------------------------------------------------------------- field names

  /** `s.indexOf(p)`: the first position where `p` occurs, `-1` when it does not. */
  function IndexOf(s: string, p: string): (k: int)
    ensures k >= 0 ==> OccursAt(s, p, k) && forall j :: 0 <= j < k ==> !OccursAt(s, p, j)
    ensures k == -1 <==> !Occurs(s, p)
    decreases |s|
  {
    if |s| < |p| then
      assert forall j :: !OccursAt(s, p, j);
      -1
    else if s[..|p|] == p then
      assert OccursAt(s, p, 0);
      0
    else
      assert !OccursAt(s, p, 0);
      OccursTail(s, p);
      OccursShift(s, p);
      var k := IndexOf(s[1..], p);
      if k < 0 then -1 else k + 1
  }

  /** `p` occurs in `s[1..]` at `j` exactly when it occurs in `s` at `j + 1`. */
  lemma OccursShift(s: string, p: string)
    requires |s| > 0
    ensures forall j :: 1 <= j ==> (OccursAt(s, p, j) <==> OccursAt(s[1..], p, j - 1))
  {
    forall j | 1 <= j ensures OccursAt(s, p, j) <==> OccursAt(s[1..], p, j - 1) {
      if j + |p| <= |s| {
        assert s[1..][j - 1..j - 1 + |p|] == s[j..j + |p|];
      }
    }
  }

  /** `s.replace(p, '')` with a string pattern: the first occurrence of `p` is cut out. */
  function RemoveFirst(s: string, p: string): (r: string)
    ensures !Occurs(s, p) ==> r == s
    ensures Occurs(s, p) ==> exists k :: (0 <= k && k + |p| <= |s| && s[k..k + |p|] == p
      && (forall j :: 0 <= j < k ==> !OccursAt(s, p, j)) && r == s[..k] + s[k + |p|..])
  {
    var k := IndexOf(s, p);
    if k < 0 then s
    else
      var r := s[..k] + s[k + |p|..];
      assert 0 <= k && k + |p| <= |s| && s[k..k + |p|] == p && r == s[..k] + s[k + |p|..];
      r
  }

  /** `id.replace('item', '').toLowerCase()`: the field an input writes. */
  function FieldName(id: string): string {
    Lower(RemoveFirst(id, "item"))
  }

  /** An id that starts with `item` writes the rest of the id, lower-cased. */
  lemma FieldNameOfPrefixed(w: string)
    ensures FieldName("item" + w) == Lower(w)
  {
    var s := "item" + w;
    assert s[..4] == "item";
    assert IndexOf(s, "item") == 0;
    assert s[4..] == w;
  }

  /** An id without `item` in it writes the field of that name, lower-cased. */
  lemma FieldNameOfPlain(id: string)
    requires !Occurs(id, "item")
    ensures FieldName(id) == Lower(id)
  {
  }

  lemma LowerName()
    ensures Lower("Name") == "name"
  {
    var r := Lower("Name");
    assert r[0] == LowerChar('N') == 'n';
    assert r[1] == 'a' && r[2] == 'm' && r[3] == 'e';
  }

  /** The name input writes `name`. */
  lemma NameInputWritesName()
    ensures FieldName("itemName") == "name"
  {
    FieldNameOfPrefixed("Name");
    assert "item" + "Name" == "itemName";
    LowerName();
  }

  /** `handleChange`: the field named by the input's id takes the typed text. */
  function HandleChange(st: ItemState, id: string, value: string): (r: ItemState)
    ensures Get(r, FieldName(id)) == Some(JStr(value))
    ensures forall k :: k != FieldName(id) ==> Get(r, k) == Get(st, k)
    ensures r.image == st.image
  {
    st.(fields := st.fields[FieldName(id) := JStr(value)])
  }

  // ---------------------------------------------------------------- product or service

  predicate IsProduct(st: ItemState) {
    Get(st, "type") == Some(JStr("product"))
  }

  /** `toggleItemType`: a product becomes a service with no unit; anything else becomes a product counted in `nos`. */
  function ToggleItemType(st: ItemState): (r: ItemState)
    ensures IsProduct(r) <==> !IsProduct(st)
    ensures Get(r, "type") == Some(JStr(if IsProduct(st) then "service" else "product"))
    ensures Get(r, "unit") == Some(JStr(if IsProduct(st) then "" else "nos"))
    ensures forall k :: k != "type" && k != "unit" ==> Get(r, k) == Get(st, k)
    ensures r.image == st.image
  {
    var product := IsProduct(st);
    st.(fields := st.fields["type" := JStr(if product then "service" else "product")]
                           ["unit" := JStr(if product then "" else "nos")])
  }

  /**
   * Toggling twice gives a product or a service its type back, but not its
   * unit: a product comes back counted in `nos`, a service with no unit.
   */
  lemma ToggleTwice(st: ItemState)
    requires Get(st, "type") == Some(JStr("product")) || Get(st, "type") == Some(JStr("service"))
    ensures Get(ToggleItemType(ToggleItemType(st)), "type") == Get(st, "type")
    ensures Get(ToggleItemType(ToggleItemType(st)), "unit") == Some(JStr(if IsProduct(st) then "nos" else ""))
  {
  }

  /** A product counted in anything but `nos` loses its unit over two toggles. */
  lemma ToggleTwiceLosesUnit(st: ItemState, unit: string)
    requires IsProduct(st) && Get(st, "unit") == Some(JStr(unit)) && unit != "nos"
    ensures Get(ToggleItemType(ToggleItemType(st)), "unit") != Get(st, "unit")
  {
  }

  // ---------------------------------------------------------------- submit checks

  /** The text `Number` reads as a plain decimal: digits with at most one `.`, and at least one digit. */
  predicate UnsignedDecimal(u: string) {
    var i := DigitRun(u);
    (i == |u| && i > 0) || (i < |u| && u[i] == '.' && DigitRun(u[i + 1..]) == |u| - i - 1 && |u| >= 2)
  }

  /**
   * `!isNaN(s)` for a string: after trimming, nothing (read as `0`), a
   * decimal with an optional sign, or `Infinity` with an optional sign.
   */
  predicate NumericText(s: string) {
    var t := Trim(s);
    t == "" || UnsignedDecimal(t) || t == "Infinity"
    || (|t| > 0 && (t[0] == '+' || t[0] == '-') && (UnsignedDecimal(t[1..]) || t[1..] == "Infinity"))
  }

  /** `isNaN(v)`: `undefined` and unreadable text are not numbers; numbers, booleans and `null` are. */
  predicate IsNaN(v: Option<Json>) {
    match v
    case None => true
    case Some(JNum(_)) => false
    case Some(JBool(_)) => false
    case Some(JNull) => false
    case Some(JStr(s)) => !NumericText(s)
    case Some(JArr(_)) => true
    case Some(JObj(_)) => true
  }

  datatype ItemCheck = MissingNameOrType | MissingUnit | BadQuantity | BadRate | Ready

  const MissingNameOrTypeMessage := "Item Name and Type are required."
  const MissingUnitMessage := "Unit of Measure is required for products."
  const BadQuantityMessage := "Quantity must be a valid number."
  const BadRateMessage := "Rate must be a valid number."

  /** `handleSubmit`'s checks, in their order; the first that fails decides. */
  function Validate(st: ItemState): (c: ItemCheck)
    ensures c == MissingNameOrType <==> !Truthy(Get(st, "name")) || !Truthy(Get(st, "type"))
    ensures c == MissingUnit <==> c != MissingNameOrType && IsProduct(st) && !Truthy(Get(st, "unit"))
    ensures c == BadQuantity <==> (c != MissingNameOrType && c != MissingUnit
      && Truthy(Get(st, "quantity")) && IsNaN(Get(st, "quantity")))
    ensures c == BadRate <==> (c != MissingNameOrType && c != MissingUnit && c != BadQuantity
      && Truthy(Get(st, "rate")) && IsNaN(Get(st, "rate")))
  {
    if !Truthy(Get(st, "name")) || !Truthy(Get(st, "type")) then MissingNameOrType
    else if IsProduct(st) && !Truthy(Get(st, "unit")) then MissingUnit
    else if Truthy(Get(st, "quantity")) && IsNaN(Get(st, "quantity")) then BadQuantity
    else if Truthy(Get(st, "rate")) && IsNaN(Get(st, "rate")) then BadRate
    else Ready
  }

  function CheckMessage(c: ItemCheck): string
    requires c != Ready
  {
    match c
    case MissingNameOrType => MissingNameOrTypeMessage
    case MissingUnit => MissingUnitMessage
    case BadQuantity => BadQuantityMessage
    case BadRate => BadRateMessage
  }

  /** A product the form lets through has a name, a type, a unit, and numbers (or nothing) for quantity and rate. */
  lemma ReadyProductIsComplete(st: ItemState)
    requires Validate(st) == Ready && IsProduct(st)
    ensures Truthy(Get(st, "name")) && Truthy(Get(st, "unit"))
    ensures !Truthy(Get(st, "quantity")) || !IsNaN(Get(st, "quantity"))
    ensures !Truthy(Get(st, "rate")) || !IsNaN(Get(st, "rate"))
  {
  }

  /** A named service passes the unit check even with no unit, as the toggle leaves it. */
  lemma ServiceNeedsNoUnit(st: ItemState, id: string, name: string)
    requires IsProduct(st) && name != "" && FieldName(id) == "name"
    requires Get(st, "quantity") == Some(JStr("")) && Get(st, "rate") == Some(JStr(""))
    ensures var s := HandleChange(ToggleItemType(st), id, name);
      Get(s, "unit") == Some(JStr("")) && Validate(s) == Ready
  {
    var t := ToggleItemType(st);
    var s := HandleChange(t, id, name);
    assert Get(t, "quantity") == Get(st, "quantity") && Get(t, "rate") == Get(st, "rate");
    assert Get(s, "type") == Get(t, "type") && Get(s, "unit") == Get(t, "unit");
    assert Get(s, "quantity") == Get(t, "quantity") && Get(s, "rate") == Get(t, "rate");
  }

  /** Switching to a product supplies a unit, so the unit check passes. */
  lemma ToggleToProductHasUnit(st: ItemState)
    requires !IsProduct(st)
    ensures var s := ToggleItemType(st);
      Validate(s) != MissingUnit
  {
  }

  /** A typed whole number passes the numeric checks. */
  lemma NumeralIsNumeric(n: nat)
    ensures NumericText(NatToString(n))
  {
    var s := NatToString(n);
    assert Trimmed(s);
    TrimAfterWhitespace("", s);
    assert "" + s == s;
    DigitRunConcat(s, "");
    assert s + "" == s;
  }

  lemma TrimmedTwelveA()
    ensures Trim("12a") == "12a" && TrimStart("12a") == "12a"
  {
    var s := "12a";
    assert !IsWhitespace(s[0]) && !IsWhitespace(s[2]);
    assert Trimmed(s);
    TrimAfterWhitespace("", s);
    assert "" + s == s;
    TrimStartPrefix("", s);
  }

  lemma TwelveADigits()
    ensures DigitRun("12a") == 2
  {
    var s := "12a";
    assert s[1..] == "2a" && s[1..][1..] == "a";
    assert DigitRun("a") == 0;
  }

  /** Text that starts with a number but goes on is refused here, although `parseFloat` would read it. */
  lemma TrailingTextIsNaN()
    ensures !NumericText("12a")
    ensures ParseDecimal("12a") == Some(12.0)
  {
    TrimmedTwelveA();
    TwelveADigits();
    var s := "12a";
    assert s[..2] == "12";
    assert DigitsValue("12") == 12;
    assert ParseUnsigned(s) == Some(12.0);
  }

  // ---------------------------------------------------------------- picture

  /** What picking a file does: the new form state and the notice shown, if any. */
  datatype ImageChange = ImageChange(state: ItemState, notice: Option<string>)

  /** `handleImageChange`: an acceptable file becomes the picture; any other is refused with its message. */
  function HandleImageChange(st: ItemState, file: Option<Images.ImageFile>): (r: ImageChange)
    ensures r.state.fields == st.fields
    ensures file.None? ==> r == ImageChange(st, None)
    ensures file.Some? && Images.CheckImage(file.value) == Images.Accepted ==> r == ImageChange(st.(image := file), None)
    ensures file.Some? && Images.CheckImage(file.value) != Images.Accepted ==>
      r.state == st && r.notice == Some(Images.VerdictMessage(Images.CheckImage(file.value)))
  {
    if file.None? then ImageChange(st, None)
    else
      var v := Images.CheckImage(file.value);
      if v == Images.Accepted then ImageChange(st.(image := file), None)
      else ImageChange(st, Some(Images.VerdictMessage(v)))
  }

  /** A picked file becomes the picture exactly when its type is listed and it is at most 5 MiB. */
  lemma PictureTakenIff(st: ItemState, file: Images.ImageFile)
    requires st.image != Some(file)
    ensures HandleImageChange(st, Some(file)).state.image == Some(file) <==>
      (file.mimeType in Images.ValidTypes && file.size <= 5 * 1024 * 1024)
  {
  }

  /** `removeImage`: the picture is dropped and the preview falls back to the stored picture, or nothing. */
  function RemoveImage(st: ItemState, storedSrc: Option<string>): (r: (ItemState, string))
    ensures r.0 == st.(image := None)
    ensures storedSrc.Some? && storedSrc.value != "" ==> r.1 == storedSrc.value
    ensures storedSrc.None? || storedSrc.value == "" ==> r.1 == ""
  {
    (st.(image := None), if storedSrc.Some? && storedSrc.value != "" then storedSrc.value else "")
  }

  /** Removing a picture just picked gives the form back as it was with no picture. */
  lemma RemoveUndoesPick(st: ItemState, file: Images.ImageFile, storedSrc: Option<string>)
    ensures RemoveImage(HandleImageChange(st, Some(file)).state, storedSrc).0 == st.(image := None)
  {
  }
}
