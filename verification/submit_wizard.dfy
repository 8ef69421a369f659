/**
 The five-step project submission wizard: its step counter, the record of
 form fields it edits one key at a time, the progress bar and navigation
 buttons it derives from the step, and its simulated submission, which ends
 on the profile page.
 */
module SubmitWizard {
  import opened Core

  // ---------------------------------------------------------------------------
  // The form record

  /** A field value: text, a check box, an optional file, or a list of files
      (files are identified by name). */
  datatype Value = Text(text: string) | Flag(on: bool) | FileRef(file: Option<string>) | FileList(files: seq<string>)

  /** The form record, keyed by field name. */
  type FormData = map<string, Value>

  /** The names of the fourteen fields the form starts with. */
  const FieldNames: set<string> := {
    "title", "description", "category", "tags", "platform", "websiteUrl", "appStoreUrl",
    "playStoreUrl", "thumbnail", "screenshots", "isForSale", "price", "contactEmail", "whatsapp"
  }

  /** The record the form starts from. */
  const InitialForm: FormData := map[
    "title" := Text(""), "description" := Text(""), "category" := Text("AI Tools"),
    "tags" := Text(""), "platform" := Text("Web"), "websiteUrl" := Text(""),
    "appStoreUrl" := Text(""), "playStoreUrl" := Text(""), "thumbnail" := FileRef(None),
    "screenshots" := FileList([]), "isForSale" := Flag(false), "price" := Text(""),
    "contactEmail" := Text(""), "whatsapp" := Text("")
  ]

  /** The initial record has exactly the fourteen fields. */
  lemma InitialFormKeys()
    ensures InitialForm.Keys == FieldNames
  {
  }

  /** Every text field of the initial record but the category and platform is
      empty, there is no thumbnail, no screenshot, and the project is not for
      sale. */
  lemma InitialFormShape()
    ensures forall k :: k in InitialForm && InitialForm[k].Text? && k !in {"category", "platform"} ==>
              InitialForm[k].text == ""
    ensures InitialForm["category"] == Text("AI Tools") && InitialForm["platform"] == Text("Web")
    ensures InitialForm["thumbnail"] == FileRef(None) && InitialForm["screenshots"] == FileList([])
    ensures InitialForm["isForSale"] == Flag(false)
  {
  }

  /** `updateForm(key, value)`: the field `key` takes `value` (it is added if
      it was not there); every other field keeps its value. */
  function UpdateForm(form: FormData, key: string, value: Value): (r: FormData)
    ensures key in r && r[key] == value
    ensures r.Keys == form.Keys + {key}
    ensures forall k :: k in form && k != key ==> r[k] == form[k]
  {
    form[key := value]
  }

  /** A later update of the same field wins. */
  lemma UpdateFormOverwrites(form: FormData, key: string, v: Value, w: Value)
    ensures UpdateForm(UpdateForm(form, key, v), key, w) == UpdateForm(form, key, w)
  {
  }

  /** Updates of different fields commute. */
  lemma UpdateFormCommutes(form: FormData, key: string, other: string, v: Value, w: Value)
    requires key != other
    ensures UpdateForm(UpdateForm(form, key, v), other, w) == UpdateForm(UpdateForm(form, other, w), key, v)
  {
  }

  /** Writing a field's own value back changes nothing. */
  lemma UpdateFormSameValue(form: FormData, key: string)
    requires key in form
    ensures UpdateForm(form, key, form[key]) == form
  {
  }

  // ---------------------------------------------------------------------------
  // Steps

  const LastStep: int := 5

  /** The names of the steps, in order; step `i` is named `StepNames[i - 1]`. */
  const StepNames: seq<string> := ["Basic Info", "Platform", "Media", "Marketplace", "Review"]

  predicate ValidStep(step: int) {
    1 <= step <= LastStep
  }

  /** `handleNext`: one step forward, except on the last step. */
  function Next(step: int): (r: int)
    ensures step < LastStep ==> r == step + 1
    ensures step >= LastStep ==> r == step
    ensures ValidStep(step) ==> ValidStep(r)
  {
    if step < LastStep then step + 1 else step
  }

  /** `handleBack`: one step back, except on the first step. */
  function Back(step: int): (r: int)
    ensures step > 1 ==> r == step - 1
    ensures step <= 1 ==> r == step
    ensures ValidStep(step) ==> ValidStep(r)
  {
    if step > 1 then step - 1 else step
  }

  /** Forward then back returns to the same step before the last; back then
      forward returns to the same step after the first. */
  lemma NextBackRoundTrip(step: int)
    ensures 1 <= step < LastStep ==> Back(Next(step)) == step
    ensures 1 < step <= LastStep ==> Next(Back(step)) == step
  {
  }

  /** `k` presses of Next from the first step. */
  function NextTimes(step: int, k: nat): int {
    if k == 0 then step else Next(NextTimes(step, k - 1))
  }

  /** Pressing Next `k` times from step 1 reaches step `1 + k`, and never goes
      past the last step. */
  lemma {:induction false} NextTimesFromStart(k: nat)
    ensures NextTimes(1, k) == if 1 + k < LastStep then 1 + k else LastStep
  {
    if k > 0 {
      NextTimesFromStart(k - 1);
    }
  }

  // ---------------------------------------------------------------------------
  // What the step shows

  /** The width of the progress bar, in percent. `step / 5 * 100` is computed
      in floating point; for the five steps it is exact. */
  function ProgressPercent(step: int): int {
    step * 20
  }

  /** The bar grows with every step, stays within (0, 100] on the five steps,
      and is full only on the last. */
  lemma ProgressBounds(step: int, later: int)
    ensures ValidStep(step) ==> 0 < ProgressPercent(step) <= 100
    ensures ValidStep(step) ==> (ProgressPercent(step) == 100 <==> step == LastStep)
    ensures step < later ==> ProgressPercent(step) < ProgressPercent(later)
  {
  }

  /** The step labels drawn highlighted: those whose number is at most `step`. */
  function HighlightedSteps(step: int): (r: seq<string>)
    requires ValidStep(step)
    ensures r == StepNames[..step]
  {
    HighlightedFrom(step, 1)
  }

  /** The labels of steps `id` to 5 that are highlighted at `step`. */
  function HighlightedFrom(step: int, id: int): (r: seq<string>)
    requires ValidStep(step) && 1 <= id <= LastStep + 1
    ensures id <= step ==> r == StepNames[id - 1..step]
    ensures id > step ==> r == []
    decreases LastStep + 1 - id
  {
    if id > LastStep then []
    else (if step >= id then [StepNames[id - 1]] else []) + HighlightedFrom(step, id + 1)
  }

  /** The Back button is disabled exactly when pressing it would do nothing. */
  predicate BackDisabled(step: int) {
    step == 1
  }

  /** The Submit button replaces Next exactly when Next would do nothing. */
  predicate ShowsSubmit(step: int) {
    !(step < LastStep)
  }

  lemma ButtonsMatchNavigation(step: int)
    requires ValidStep(step)
    ensures BackDisabled(step) <==> Back(step) == step
    ensures ShowsSubmit(step) <==> Next(step) == step
    ensures ShowsSubmit(step) <==> step == LastStep
  {
  }

  // ---------------------------------------------------------------------------
  // The wizard as a whole

  /** The wizard's state; `page` is where it has navigated to, if anywhere. */
  datatype Wizard = Wizard(step: int, loading: bool, form: FormData, page: Option<string>)

  const Start: Wizard := Wizard(1, false, InitialForm, None)

  datatype Event = PressNext | PressBack | Edit(key: string, value: Value)

  /** One user action. Navigation never touches the form; editing never
      touches the step. */
  function Apply(w: Wizard, e: Event): (r: Wizard)
    ensures e.Edit? ==> r.step == w.step && r.form == UpdateForm(w.form, e.key, e.value)
    ensures !e.Edit? ==> r.form == w.form
    ensures ValidStep(w.step) ==> ValidStep(r.step)
    ensures r.loading == w.loading && r.page == w.page
  {
    match e
    case PressNext => w.(step := Next(w.step))
    case PressBack => w.(step := Back(w.step))
    case Edit(key, value) => w.(form := UpdateForm(w.form, key, value))
  }

  function Run(w: Wizard, events: seq<Event>): Wizard
    decreases |events|
  {
    if |events| == 0 then w else Run(Apply(w, events[0]), events[1..])
  }

  /** Keys edited by a sequence of actions. */
  function EditedKeys(events: seq<Event>): set<string>
    decreases |events|
  {
    if |events| == 0 then {}
    else (if events[0].Edit? then {events[0].key} else {}) + EditedKeys(events[1..])
  }

  /** From the start, every sequence of actions keeps the step within 1 to 5,
      and fields no action edited keep their initial value. */
  lemma {:induction false} RunKeepsInvariant(w: Wizard, events: seq<Event>)
    requires ValidStep(w.step)
    ensures ValidStep(Run(w, events).step)
    ensures forall k :: k in w.form && k !in EditedKeys(events) ==>
              k in Run(w, events).form && Run(w, events).form[k] == w.form[k]
    ensures Run(w, events).form.Keys == w.form.Keys + EditedKeys(events)
    decreases |events|
  {
    if |events| > 0 {
      RunKeepsInvariant(Apply(w, events[0]), events[1..]);
    }
  }

  /** Pressing Submit: the button shows its spinner. */
  function BeginSubmit(w: Wizard): (r: Wizard)
    ensures r.loading && r.step == w.step && r.form == w.form && r.page == w.page
  {
    w.(loading := true)
  }

  /** The simulated submission completes: the spinner stops and the wizard
      navigates to the profile page with a success toast. */
  function FinishSubmit(w: Wizard): (r: (Wizard, string))
    ensures !r.0.loading && r.0.page == Some("/profile")
    ensures r.0.step == w.step && r.0.form == w.form
    ensures r.1 == "Project submitted successfully!"
  {
    (w.(loading := false, page := Some("/profile")), "Project submitted successfully!")
  }

  /** JavaScript truthiness of a field value. */
  predicate ValueTruthy(v: Value) {
    match v
    case Text(t) => t != ""
    case Flag(b) => b
    case FileRef(f) => f.Some?
    case FileList(_) => true
  }

  /** A text line of the review step: the field `key` when it is present and
      truthy, the placeholder otherwise. The review shows the title with the
      placeholder "Untitled Project" and the description with "No description
      provided.". */
  function ReviewText(form: FormData, key: string, placeholder: string): (v: Value)
    ensures key in form && ValueTruthy(form[key]) ==> v == form[key]
    ensures !(key in form && ValueTruthy(form[key])) ==> v == Text(placeholder)
    ensures placeholder != "" ==> ValueTruthy(v)
  {
    if key in form && ValueTruthy(form[key]) then form[key] else Text(placeholder)
  }

  /** The review step shows a price line only when the project is for sale. */
  predicate ShowsPrice(form: FormData) {
    "isForSale" in form && ValueTruthy(form["isForSale"])
  }

  /** A fresh form reviews as untitled, undescribed and not for sale; typing a
      title makes the review show exactly that title. */
  lemma ReviewOfFreshForm(title: string)
    ensures ReviewText(InitialForm, "title", "Untitled Project") == Text("Untitled Project")
    ensures ReviewText(InitialForm, "description", "No description provided.") == Text("No description provided.")
    ensures !ShowsPrice(InitialForm)
    ensures title != "" ==>
              ReviewText(UpdateForm(InitialForm, "title", Text(title)), "title", "Untitled Project") == Text(title)
  {
  }
}
