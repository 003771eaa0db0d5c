/**
 The prompt that main.py:81-100 builds with an f-string from the template
 text and the lesson form.  Every form value enters as the string Python
 renders for it (a date as `str(date)`, the two number inputs as their
 float rendering), so the model takes the form as strings.
 */
module Prompt {

  /** The form of main.py:58-75, as rendered strings. */
  datatype LessonForm = LessonForm(
    date: string,
    classPeriod: string,
    className: string,
    instructor: string,
    unitNumber: string,
    unitName: string,
    lessonNumber: string,
    lessonName: string,
    standard: string,
    objective: string,
    description: string)

  /** The sixteen spaces that open every line of the f-string's source text. */
  const Indent: string := "                "

  /** The labelled instruction lines of main.py:87-97, in order. */
  function Fields(form: LessonForm): (fs: seq<(string, string)>)
    ensures |fs| == 11
  {
    [ ("Lesson Date", form.date),
      ("Class Period", form.classPeriod),
      ("Class Name", form.className),
      ("Instructor", form.instructor),
      ("Unit Number", form.unitNumber),
      ("Unit Name", form.unitName),
      ("Lesson Number", form.lessonNumber),
      ("Lesson Name", form.lessonName),
      ("Lesson Standard", form.standard),
      ("Lesson Objective", form.objective),
      ("Lesson Description", form.description) ]
  }

  function FieldLine(field: (string, string)): string {
    Indent + field.0 + ": " + field.1 + "\n"
  }

  function FieldLines(fs: seq<(string, string)>): string {
    if fs == [] then [] else FieldLine(fs[0]) + FieldLines(fs[1..])
  }

  /** The literal text before the first `{template_text}`. */
  const Opening: string :=
    "\n" + Indent + "Use the following template to create a custom lesson plan:\n"
    + Indent + "TEMPLATE:\n" + Indent

  /** The literal text between the first `{template_text}` and the form lines. */
  const Customize: string :=
    "\n\n" + Indent + "Customize it based on the following instructions:\n"

  /** The literal text between the form lines and the second `{template_text}`. */
  const Ensure: string :=
    "\n" + Indent + "Ensure the lesson plan includes all of the sections in the "

  /** The literal text after the second `{template_text}`. */
  const Closing: string := "\n" + Indent

  /** The f-string of main.py:81-100. */
  function BuildPrompt(template: string, form: LessonForm): string {
    Opening + template + Middle(form) + template + Closing
  }

  /** What stands between the two copies of the template text (main.py:85-99). */
  function Middle(form: LessonForm): string {
    Customize + FieldLines(Fields(form)) + Ensure
  }

  predicate OccursAt(s: string, x: string, i: int) {
    0 <= i && i + |x| <= |s| && s[i..i + |x|] == x
  }

  lemma OccursInMiddle(a: string, x: string, b: string)
    ensures OccursAt(a + x + b, x, |a|)
  {
    assert (a + x + b)[|a|..|a| + |x|] == x;
  }

  lemma OccursInside(s: string, x: string, i: int, a: string, b: string)
    requires OccursAt(s, x, i)
    ensures OccursAt(a + s + b, x, |a| + i)
  {
    var t, off := a + s + b, |a| + i;
    forall k | 0 <= k < |x| ensures t[off..off + |x|][k] == x[k] {
      assert t[off + k] == s[i + k];
    }
  }

  lemma OccursTwice(a: string, x: string, m: string, c: string)
    ensures OccursAt(a + x + m + x + c, x, |a|)
    ensures OccursAt(a + x + m + x + c, x, |a| + |x| + |m|)
  {
    OccursInMiddle(a, x, m + x + c);
    assert a + x + m + x + c == a + x + (m + x + c);
    OccursInMiddle(a + x + m, x, c);
  }

  /** The template text appears twice in the prompt, at two places that do
      not overlap: in the TEMPLATE block and in the closing instruction. */
  lemma PromptHoldsTemplateTwice(template: string, form: LessonForm)
    ensures exists i, j ::
      && i + |template| <= j
      && OccursAt(BuildPrompt(template, form), template, i)
      && OccursAt(BuildPrompt(template, form), template, j)
  {
    OccursTwice(Opening, template, Middle(form), Closing);
    var p := BuildPrompt(template, form);
    var i, j := |Opening|, |Opening| + |template| + |Middle(form)|;
    assert i + |template| <= j && OccursAt(p, template, i) && OccursAt(p, template, j);
  }

  lemma {:induction false} FieldLineOccurs(fs: seq<(string, string)>, k: nat)
    requires k < |fs|
    ensures exists i :: OccursAt(FieldLines(fs), FieldLine(fs[k]), i)
  {
    if k == 0 {
      OccursInMiddle([], FieldLine(fs[0]), FieldLines(fs[1..]));
      assert [] + FieldLine(fs[0]) + FieldLines(fs[1..]) == FieldLines(fs);
    } else {
      FieldLineOccurs(fs[1..], k - 1);
      var i :| OccursAt(FieldLines(fs[1..]), FieldLine(fs[1..][k - 1]), i);
      OccursInside(FieldLines(fs[1..]), FieldLine(fs[k]), i, FieldLine(fs[0]), []);
      assert FieldLine(fs[0]) + FieldLines(fs[1..]) + [] == FieldLines(fs);
    }
  }

  /** Every form value appears in the prompt verbatim, on its own line after
      its label. */
  lemma PromptShowsEveryField(template: string, form: LessonForm, k: nat)
    requires k < |Fields(form)|
    ensures exists i :: OccursAt(BuildPrompt(template, form), FieldLine(Fields(form)[k]), i)
  {
    var fs := Fields(form);
    FieldLineOccurs(fs, k);
    var i :| OccursAt(FieldLines(fs), FieldLine(fs[k]), i);
    OccursInside(FieldLines(fs), FieldLine(fs[k]), i, Customize, Ensure);
    var j := |Customize| + i;
    OccursInside(Middle(form), FieldLine(fs[k]), j, Opening + template, template + Closing);
    assert Opening + template + Middle(form) + (template + Closing) == BuildPrompt(template, form);
  }
}
