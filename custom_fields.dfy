/** Collection of custom-field answers on the contact-creation form: each
    field the server describes gets a widget chosen by its type, and the
    widget's answer is stored under the field's slug. */
module CustomFields {
  import opened Values

  /** A custom-field description as read from the server: the values of
      its "type", "slug" and "label" keys (Null when absent; `title` holds
      the label) and its "options" list (empty when absent). */
  datatype Field = Field(kind: Value, slug: Value, title: Value, options: seq<Value>)

  /** What the form's widgets return for one field: the text typed into a
      text input, the option picked in a single-choice box or radio group
      (Null when there are no options), and the options ticked in a
      multi-select. Only the one matching the field's type is read. */
  datatype Answer = Answer(typed: string, choice: Value, picked: seq<Value>)

  /** The value stored for one field: a single value, or the list of
      options ticked for a checkbox field. */
  datatype Slot = One(value: Value) | Many(values: seq<Value>)

  /** Field types the form renders a widget for. */
  predicate Recognised(f: Field)
  {
    f.kind == Str("text") || f.kind == Str("select-one") || f.kind == Str("radio") || f.kind == Str("checkbox")
  }

  /** The slot a recognised field's widget fills. */
  function SlotFor(f: Field, a: Answer): (s: Slot)
    requires Recognised(f)
    ensures s.Many? <==> f.kind == Str("checkbox")
    ensures f.kind == Str("text") ==> s == One(Str(a.typed))
    ensures (f.kind == Str("select-one") || f.kind == Str("radio")) ==> s == One(a.choice)
    ensures s.Many? ==> s.values == a.picked
  {
    if f.kind == Str("text") then One(Str(a.typed))
    else if f.kind == Str("checkbox") then Many(a.picked)
    else One(a.choice)
  }

  /** The custom values after the form has gone through `fields` in order,
      `answers[i]` being what the widgets returned for `fields[i]`. */
  function CustomValuesOf(fields: seq<Field>, answers: seq<Answer>): map<Value, Slot>
    requires |answers| == |fields|
    decreases |fields|
  {
    if fields == [] then map[]
    else
      var n := |fields| - 1;
      var before := CustomValuesOf(fields[..n], answers[..n]);
      if Recognised(fields[n]) then before[fields[n].slug := SlotFor(fields[n], answers[n])] else before
  }

  /** The loop that fills the custom-values dictionary field by field. */
  method CollectCustomValues(fields: seq<Field>, answers: seq<Answer>) returns (values: map<Value, Slot>)
    requires |answers| == |fields|
    ensures values == CustomValuesOf(fields, answers)
  {
    values := map[];
    var i := 0;
    while i < |fields|
      invariant 0 <= i <= |fields|
      invariant values == CustomValuesOf(fields[..i], answers[..i])
    {
      var field := fields[i];
      if field.kind == Str("text") {
        values := values[field.slug := One(Str(answers[i].typed))];
      } else if field.kind == Str("select-one") {
        values := values[field.slug := One(answers[i].choice)];
      } else if field.kind == Str("radio") {
        values := values[field.slug := One(answers[i].choice)];
      } else if field.kind == Str("checkbox") {
        values := values[field.slug := Many(answers[i].picked)];
      }
      assert fields[..i + 1][..i] == fields[..i] && answers[..i + 1][..i] == answers[..i];
      i := i + 1;
    }
    assert fields[..i] == fields && answers[..i] == answers;
  }

  /** A slug has a slot exactly when some field with that slug has a
      recognised type. */
  lemma {:induction false} SlotExistsIff(fields: seq<Field>, answers: seq<Answer>, key: Value)
    requires |answers| == |fields|
    ensures key in CustomValuesOf(fields, answers) <==>
            exists i :: 0 <= i < |fields| && Recognised(fields[i]) && fields[i].slug == key
    decreases |fields|
  {
    if fields != [] {
      var n := |fields| - 1;
      SlotExistsIff(fields[..n], answers[..n], key);
      if key in CustomValuesOf(fields, answers) && !(Recognised(fields[n]) && fields[n].slug == key) {
        var i :| 0 <= i < n && Recognised(fields[..n][i]) && fields[..n][i].slug == key;
        assert fields[i] == fields[..n][i];
      }
      if exists i :: 0 <= i < |fields| && Recognised(fields[i]) && fields[i].slug == key {
        var i :| 0 <= i < |fields| && Recognised(fields[i]) && fields[i].slug == key;
        if i < n {
          assert fields[..n][i] == fields[i];
        }
      }
    }
  }

  /** The slot under a slug is the one filled by the LAST recognised field
      carrying that slug: a later field overwrites an earlier one. */
  lemma {:induction false} LastFieldWins(fields: seq<Field>, answers: seq<Answer>, i: nat)
    requires |answers| == |fields|
    requires i < |fields| && Recognised(fields[i])
    requires forall j :: i < j < |fields| && Recognised(fields[j]) ==> fields[j].slug != fields[i].slug
    ensures fields[i].slug in CustomValuesOf(fields, answers)
    ensures CustomValuesOf(fields, answers)[fields[i].slug] == SlotFor(fields[i], answers[i])
    decreases |fields|
  {
    var n := |fields| - 1;
    if i < n {
      forall j | i < j < n && Recognised(fields[..n][j])
        ensures fields[..n][j].slug != fields[..n][i].slug
      {
        assert fields[..n][j] == fields[j];
      }
      LastFieldWins(fields[..n], answers[..n], i);
      assert fields[..n][i] == fields[i] && answers[..n][i] == answers[i];
    }
  }
}
