/**
 * One rendered field of the generic form: the text it shows, the values it
 * emits to the form, the suggestion dropdown of text fields, and the HTML
 * input type, placeholder and validation attributes it derives from the
 * field descriptor and from words inside the field's name.
 */
module FieldControl {
  import opened Wrappers
  import opened Strings
  import opened JsValues
  import opened FormConfigs

  // ---------------------------------------------------------------------
  // Shown text, emitted values and suggestions
  // ---------------------------------------------------------------------

  /**
   * The control's state: the shown text, the suggestion list and whether the
   * dropdown is open. `emitted` lists the values sent to `onChange` by the
   * last event, in order.
   */
  datatype Control = Control(input: string, filtered: seq<string>, open: bool, emitted: seq<string>)

  /** `value || ''`: the text shown after the value prop changes. */
  function Shown(value: Value): (r: Value)
    ensures Truthy(value) ==> r == value
    ensures !Truthy(value) ==> r == Empty
  {
    Or(value, Empty)
  }

  /** `suggestions.filter(s => s.toLowerCase().includes(q.toLowerCase()))` */
  function Matching(suggestions: seq<string>, q: string): (r: seq<string>)
    ensures |r| <= |suggestions|
    ensures forall s | s in r :: s in suggestions && ContainsIgnoreCase(s, q)
    ensures forall s | s in suggestions && ContainsIgnoreCase(s, q) :: s in r
    decreases |suggestions|
  {
    if suggestions == [] then []
    else
      var n := |suggestions| - 1;
      Matching(suggestions[..n], q) + (if ContainsIgnoreCase(suggestions[n], q) then [suggestions[n]] else [])
  }

  /** Filtering a concatenation filters each part in turn, so the kept suggestions keep their order. */
  lemma {:induction false} MatchingAppend(a: seq<string>, b: seq<string>, q: string)
    ensures Matching(a + b, q) == Matching(a, q) + Matching(b, q)
    decreases |b|
  {
    if b == [] {
      assert a + b == a;
    } else {
      var n := |b| - 1;
      assert (a + b)[..|a + b| - 1] == a + b[..n];
      assert (a + b)[|a + b| - 1] == b[n];
      MatchingAppend(a, b[..n], q);
    }
  }

  /** When every suggestion matches, all are kept, in order. */
  lemma {:induction false} MatchingAll(suggestions: seq<string>, q: string)
    requires forall i | 0 <= i < |suggestions| :: ContainsIgnoreCase(suggestions[i], q)
    ensures Matching(suggestions, q) == suggestions
    decreases |suggestions|
  {
    if suggestions != [] {
      var n := |suggestions| - 1;
      MatchingAll(suggestions[..n], q);
      assert suggestions[..n] + [suggestions[n]] == suggestions;
    }
  }

  /**
   * `handleInputChange`: the text becomes the new value and is emitted once.
   * Only a text field with a suggestion list and a non-empty value
   * recomputes the list; the dropdown opens exactly when something matches.
   * Any other edit leaves the list and the dropdown as they were.
   */
  function InputChange(c: Control, f: Field, newValue: string): (r: Control)
    ensures r.input == newValue && r.emitted == [newValue]
    ensures f.kind == Text && f.suggestions.Some? && newValue != "" ==>
      && r.filtered == Matching(f.suggestions.value, newValue)
      && (r.open <==> exists s | s in f.suggestions.value :: ContainsIgnoreCase(s, newValue))
    ensures !(f.kind == Text && f.suggestions.Some? && newValue != "") ==> r.filtered == c.filtered && r.open == c.open
  {
    if f.kind == Text && f.suggestions.Some? && |newValue| > 0 then
      var filtered := Matching(f.suggestions.value, newValue);
      assert |filtered| > 0 ==> filtered[0] in filtered;
      Control(newValue, filtered, |filtered| > 0, [newValue])
    else
      Control(newValue, c.filtered, c.open, [newValue])
  }

  /** A textarea never opens the dropdown. */
  lemma TextareaNoSuggestions(c: Control, f: Field, newValue: string)
    requires f.kind == Textarea && !c.open
    ensures !InputChange(c, f, newValue).open
  {
  }

  /** `handleSelectChange`: the chosen option's value is shown and emitted once. */
  function SelectChange(c: Control, newValue: string): (r: Control)
    ensures r.input == newValue && r.emitted == [newValue]
    ensures r.filtered == c.filtered && r.open == c.open
  {
    c.(input := newValue, emitted := [newValue])
  }

  /** `handleSuggestionClick`: the literal suggestion is shown and emitted, and the dropdown closes. */
  function SuggestionClick(c: Control, suggestion: string): (r: Control)
    ensures r.input == suggestion && r.emitted == [suggestion] && !r.open
    ensures r.filtered == c.filtered
  {
    c.(input := suggestion, emitted := [suggestion], open := false)
  }

  /** The parent echoes every emitted text back as `value`, and the echo shows exactly that text. */
  lemma ShownEcho(s: string)
    ensures Shown(Str(s)) == Str(s)
  {
  }

  /** After any of the three handlers, echoing the emitted value leaves the shown text as the handler set it. */
  lemma EchoShowsEmitted(c: Control, f: Field, v: string)
    ensures var r := InputChange(c, f, v); |r.emitted| == 1 && Shown(Str(r.emitted[0])) == Str(r.input)
    ensures var r := SelectChange(c, v); |r.emitted| == 1 && Shown(Str(r.emitted[0])) == Str(r.input)
    ensures var r := SuggestionClick(c, v); |r.emitted| == 1 && Shown(Str(r.emitted[0])) == Str(r.input)
  {
    ShownEcho(v);
  }

  /** A select change is an input change without the suggestion step: for any field without suggestions they agree. */
  lemma SelectIsPlainInput(c: Control, f: Field, v: string)
    requires !(f.kind == Text && f.suggestions.Some?)
    ensures SelectChange(c, v) == InputChange(c, f, v)
  {
  }

  /**
   * Clicking an entry of the list that typing produced shows and emits one
   * of the field's own suggestions, one containing the typed text, and
   * closes the dropdown.
   */
  lemma ClickedSuggestionMatches(c: Control, f: Field, typed: string, k: nat)
    requires f.kind == Text && f.suggestions.Some? && typed != ""
    requires k < |InputChange(c, f, typed).filtered|
    ensures var after := InputChange(c, f, typed);
      var r := SuggestionClick(after, after.filtered[k]);
      && r.input in f.suggestions.value && ContainsIgnoreCase(r.input, typed)
      && r.emitted == [r.input] && !r.open
  {
    var after := InputChange(c, f, typed);
    assert after.filtered[k] in after.filtered;
  }

  /** Typing a suggestion's own text keeps that suggestion in the list. */
  lemma TypedSuggestionKept(c: Control, f: Field, s: string)
    requires f.kind == Text && f.suggestions.Some? && s in f.suggestions.value && s != ""
    ensures s in InputChange(c, f, s).filtered && InputChange(c, f, s).open
  {
    assert OccursAt(ToLower(s), ToLower(s), 0);
  }

  // ---------------------------------------------------------------------
  // Input type, placeholder and validation attributes
  // ---------------------------------------------------------------------

  /** The name marks a money amount: it contains cost, amount or value. */
  predicate MoneyName(name: string) {
    Contains(name, "cost") || Contains(name, "amount") || Contains(name, "value")
  }

  /** The name marks a percentage: it contains rate or percentage. */
  predicate PercentName(name: string) {
    Contains(name, "rate") || Contains(name, "percentage")
  }

  /** The name marks a numeric input: a date or year, a money amount or a percentage. */
  predicate NumericName(name: string) {
    Contains(name, "date") || Contains(name, "year") || MoneyName(name) || PercentName(name)
  }

  /** `getInputType` */
  function InputType(f: Field): (r: string)
    ensures r == "number" <==> f.kind == Number && NumericName(f.name)
    ensures f.kind in {Date, Email, Tel, Url} ==> r == (match f.kind case Date => "date" case Email => "email" case Tel => "tel" case _ => "url")
    ensures f.kind !in {Date, Email, Tel, Url} && !(f.kind == Number && NumericName(f.name)) ==> r == "text"
  {
    if f.kind == Number && (Contains(f.name, "date") || Contains(f.name, "year")) then "number"
    else if f.kind == Number && MoneyName(f.name) then "number"
    else if f.kind == Number && PercentName(f.name) then "number"
    else if f.kind == Date then "date"
    else if f.kind == Email then "email"
    else if f.kind == Tel then "tel"
    else if f.kind == Url then "url"
    else "text"
  }

  /** No window of `name` as long as `word` starts with the first letter of `word`. */
  lemma AbsentLetter(name: string, word: string)
    requires |word| > 0 && forall i | 0 <= i && i + |word| <= |name| :: name[i] != word[0]
    ensures !Contains(name, word)
  {
    forall i | 0 <= i <= |name|
      ensures !OccursAt(name, word, i)
    {
      if i + |word| <= |name| {
        assert name[i..i + |word|][0] == name[i];
      }
    }
  }

  /** No window of `name` as long as `word` starts with the first three letters of `word`. */
  lemma AbsentPrefix(name: string, word: string)
    requires |word| >= 3
    requires forall i | 0 <= i && i + |word| <= |name| ::
      name[i] != word[0] || name[i + 1] != word[1] || name[i + 2] != word[2]
    ensures !Contains(name, word)
  {
    forall i | 0 <= i <= |name|
      ensures !OccursAt(name, word, i)
    {
      if i + |word| <= |name| {
        var w := name[i..i + |word|];
        assert w[0] == name[i] && w[1] == name[i + 1] && w[2] == name[i + 2];
      }
    }
  }

  /** A number field named `mileage` renders as a text input. */
  lemma MileageIsText(f: Field)
    requires f.kind == Number && f.name == "mileage"
    ensures InputType(f) == "text"
  {
    var n := "mileage";
    AbsentLetter(n, "date");
    AbsentLetter(n, "year");
    AbsentLetter(n, "cost");
    AbsentLetter(n, "amount");
    AbsentLetter(n, "value");
    AbsentLetter(n, "rate");
    AbsentLetter(n, "percentage");
  }

  /** A number field named `power_consumption` renders as a text input. */
  lemma PowerConsumptionIsText(f: Field)
    requires f.kind == Number && f.name == "power_consumption"
    ensures InputType(f) == "text"
  {
    PowerConsumptionNoDate();
    PowerConsumptionNoMoney();
    PowerConsumptionNoPercent();
  }

  lemma PowerConsumptionNoDate()
    ensures !Contains("power_consumption", "date") && !Contains("power_consumption", "year")
  {
    var n := "power_consumption";
    AbsentLetter(n, "date");
    AbsentLetter(n, "year");
  }

  lemma PowerConsumptionNoMoney()
    ensures !MoneyName("power_consumption")
  {
    var n := "power_consumption";
    AbsentLetter(n, "amount");
    AbsentLetter(n, "value");
    AbsentPrefix(n, "cost");
  }

  lemma PowerConsumptionNoPercent()
    ensures !PercentName("power_consumption")
  {
    var n := "power_consumption";
    AbsentPrefix(n, "rate");
    AbsentPrefix(n, "percentage");
  }

  /** `getPlaceholder`'s per-name defaults. */
  const NamePlaceholders: map<string, string> := map[
    "asset_name" := "e.g., MacBook Pro 16\", Samsung 55\" TV",
    "asset_code" := "e.g., LAPTOP-001, TV-001",
    "serial_number" := "e.g., ABC123456789",
    "model_number" := "e.g., MBP16-2023, QN55Q80A",
    "brand" := "e.g., Apple, Samsung, Dell",
    "cost" := "0.00",
    "rate" := "10.00",
    "book_value" := "0.00",
    "performed_by" := "e.g., John Smith or ABC Maintenance Co.",
    "warranty_provider" := "e.g., Apple, Samsung, Dell",
    "contact_person" := "e.g., John Smith",
    "email" := "e.g., john@company.com",
    "contact_number" := "e.g., +1 (555) 123-4567"]

  /** `getPlaceholder`: a non-empty configured placeholder, else the name's default, else the caption. */
  function Placeholder(f: Field): (r: string)
    ensures f.placeholder.Some? && f.placeholder.value != "" ==> r == f.placeholder.value
    ensures (f.placeholder.None? || f.placeholder.value == "") && f.name in NamePlaceholders ==> r == NamePlaceholders[f.name]
    ensures (f.placeholder.None? || f.placeholder.value == "") && f.name !in NamePlaceholders ==> r == f.caption
  {
    if f.placeholder.Some? && f.placeholder.value != "" then f.placeholder.value
    else if f.name in NamePlaceholders then NamePlaceholders[f.name]
    else f.caption
  }

  /** A select's trigger text: a non-empty configured placeholder, else "Select " and the caption; the per-name defaults are not consulted. */
  function SelectPlaceholder(f: Field): (r: string)
    ensures |r| > 0
    ensures f.placeholder.Some? && f.placeholder.value != "" ==> r == f.placeholder.value
  {
    if f.placeholder.Some? && f.placeholder.value != "" then f.placeholder.value else "Select " + f.caption
  }

  /** The placeholder a rendered field shows: selects use their own rule, textareas and inputs `getPlaceholder`. */
  function RenderedPlaceholder(f: Field): string {
    if f.kind == Select then SelectPlaceholder(f) else Placeholder(f)
  }

  /**
   * A configured placeholder is shown by every kind of field; without one a
   * select shows "Select " and its caption even when its name has a per-name
   * default, and any other field shows that default, or else its caption.
   */
  lemma PlaceholderRules(f: Field)
    ensures f.placeholder.Some? && f.placeholder.value != "" ==> RenderedPlaceholder(f) == f.placeholder.value
    ensures (f.placeholder.None? || f.placeholder.value == "") && f.kind == Select ==> RenderedPlaceholder(f) == "Select " + f.caption
    ensures (f.placeholder.None? || f.placeholder.value == "") && f.kind != Select ==>
      RenderedPlaceholder(f) == (if f.name in NamePlaceholders then NamePlaceholders[f.name] else f.caption)
  {
  }

  /** Every rendered field with a caption shows a non-empty placeholder; a select always does. */
  lemma PlaceholderNeverBlank(f: Field)
    ensures f.kind == Select ==> RenderedPlaceholder(f) != ""
    ensures f.caption != "" ==> RenderedPlaceholder(f) != ""
  {
    if f.kind != Select && (f.placeholder.None? || f.placeholder.value == "") && f.name in NamePlaceholders {
      NamePlaceholdersNonEmpty(f.name);
    }
  }

  /** Every per-name default is a non-empty text. */
  lemma NamePlaceholdersNonEmpty(name: string)
    requires name in NamePlaceholders
    ensures NamePlaceholders[name] != ""
  {
  }

  /** The asset template's category select shows its configured "Select category", before and after its options are filled. */
  lemma CategoryPlaceholder(options: seq<SelectOption>)
    ensures AssetConfig.fields[2].name == "category" && AssetConfig.fields[2].kind == Select
    ensures RenderedPlaceholder(AssetConfig.fields[2]) == "Select category"
    ensures RenderedPlaceholder(AssetConfig.fields[2].(options := Some(options))) == "Select category"
  {
    var f := AssetConfig.fields[2];
    assert f == Plain("category", "Category", Select, true, Some("Select category"));
  }

  /** The HTML validation attributes; `None` is an absent attribute. */
  datatype Attrs = Attrs(
    required: bool,
    min: Option<real>,
    max: Option<real>,
    minLength: Option<nat>,
    maxLength: Option<nat>,
    step: Option<real>,
    pattern: Option<string>)

  const EmailPattern := "[a-z0-9._%+-]+@[a-z0-9.-]+\\.[a-z]{2,}$"

  /** `if (field.x) attrs.x = field.x`: a configured zero is falsy and is not copied. */
  function IfTruthy(x: Option<real>): (r: Option<real>)
    ensures r.Some? <==> x.Some? && x.value != 0.0
    ensures r.Some? ==> r == x
  {
    if x.Some? && x.value != 0.0 then x else None
  }

  function IfTruthyNat(x: Option<nat>): (r: Option<nat>)
    ensures r.Some? <==> x.Some? && x.value != 0
    ensures r.Some? ==> r == x
  {
    if x.Some? && x.value != 0 then x else None
  }

  /**
   * `getValidationAttributes`: truthy configured values are copied; a money
   * name then forces min 0 and step 0.01, a percentage name min 0, max 100
   * and step 0.01; an email field gets the fixed pattern.
   */
  function ValidationAttrs(f: Field): (a: Attrs)
    ensures a.required == f.required
    ensures a.minLength == IfTruthyNat(f.minLength) && a.maxLength == IfTruthyNat(f.maxLength)
    ensures PercentName(f.name) ==> a.min == Some(0.0) && a.max == Some(100.0) && a.step == Some(0.01)
    ensures MoneyName(f.name) && !PercentName(f.name) ==> a.min == Some(0.0) && a.step == Some(0.01) && a.max == IfTruthy(f.max)
    ensures !MoneyName(f.name) && !PercentName(f.name) ==>
      a.min == IfTruthy(f.min) && a.max == IfTruthy(f.max) && a.step == IfTruthy(f.step)
    ensures a.pattern.Some? <==> f.kind == Email
    ensures a.pattern.Some? ==> a.pattern.value == EmailPattern
  {
    var copied := Attrs(f.required, IfTruthy(f.min), IfTruthy(f.max), IfTruthyNat(f.minLength),
                        IfTruthyNat(f.maxLength), IfTruthy(f.step), None);
    var money := if MoneyName(f.name) then copied.(min := Some(0.0), step := Some(0.01)) else copied;
    var percent := if PercentName(f.name) then money.(min := Some(0.0), max := Some(100.0), step := Some(0.01)) else money;
    if f.kind == Email then percent.(pattern := Some(EmailPattern)) else percent
  }

  /** A configured `min: 0` on a field whose name is neither money nor a percentage is dropped. */
  lemma ZeroMinDropped(f: Field)
    requires f.min == Some(0.0) && !MoneyName(f.name) && !PercentName(f.name)
    ensures ValidationAttrs(f).min.None?
  {
  }

  /** The mileage extension field renders as text and loses its configured minimum. */
  lemma MileageField()
    ensures CategoryFields("Vehicles")[1].name == "mileage" && CategoryFields("Vehicles")[1].min == Some(0.0)
    ensures InputType(CategoryFields("Vehicles")[1]) == "text"
    ensures ValidationAttrs(CategoryFields("Vehicles")[1]).min.None?
  {
    var f := CategoryFields("Vehicles")[1];
    MileageIsText(f);
  }

  /** The depreciation rate is a percentage: its attributes are min 0, max 100, step 0.01 whatever it configures. */
  lemma RateField(f: Field)
    requires f.name == "rate"
    ensures ValidationAttrs(f).min == Some(0.0) && ValidationAttrs(f).max == Some(100.0) && ValidationAttrs(f).step == Some(0.01)
    ensures f.kind == Number ==> InputType(f) == "number"
  {
    assert OccursAt("rate", "rate", 0);
  }
}
