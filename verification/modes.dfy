/** The `mode` option and the six visibility/editability flags derived from it
    once, at construction. */
module Modes {

  /** The raw `options.mode`: a string, or any other JavaScript value. */
  datatype ModeArg = ModeString(text: string) | NonString

  /** Anything but a string is replaced by the empty mode. */
  function SanitizeMode(m: ModeArg): (r: string)
    ensures m.NonString? ==> r == ""
    ensures m.ModeString? ==> r == m.text
  {
    match m
    case ModeString(t) => t
    case NonString => ""
  }

  datatype Flags = Flags(
    answerEditable: bool, answerVisible: bool,
    solutionEditable: bool, solutionVisible: bool,
    annotationsEditable: bool, annotationsVisible: bool)

  /** The flags as the constructor computes them from the sanitised mode string. */
  function FlagsFor(mode: string): (f: Flags)
    ensures f.answerEditable ==> f.answerVisible
    ensures f.solutionEditable ==> f.solutionVisible
    ensures f.annotationsEditable ==> f.annotationsVisible
    ensures mode == "showSolution" ==>
      f.solutionVisible && f.answerVisible && !f.annotationsVisible
      && !f.answerEditable && !f.solutionEditable && !f.annotationsEditable
    ensures mode == "showAnnotations" ==>
      f == Flags(false, false, false, false, false, true)
  {
    var answerEditable := mode == "editAnswer";
    var solutionEditable := mode == "editSolution";
    var annotationsEditable := mode == "editAnnotations";
    Flags(answerEditable, answerEditable || mode == "showSolution",
          solutionEditable, solutionEditable || mode == "showSolution",
          annotationsEditable, annotationsEditable || mode == "showAnnotations")
  }

  /** Polygon editing is on: the condition under which vertices are hit-tested,
      polygons can be selected and every pointer move forces a redraw. */
  predicate EditMode(f: Flags)
  {
    f.solutionEditable || f.annotationsEditable
  }

  /** The five modes the viewer recognises, and everything else. */
  datatype Mode = EditAnswer | ShowSolution | EditSolution | EditAnnotations | ShowAnnotations | Unrecognised

  function ModeName(m: Mode): string
  {
    match m
    case EditAnswer => "editAnswer"
    case ShowSolution => "showSolution"
    case EditSolution => "editSolution"
    case EditAnnotations => "editAnnotations"
    case ShowAnnotations => "showAnnotations"
    case Unrecognised => ""
  }

  function ParseMode(s: string): Mode
  {
    if s == "editAnswer" then EditAnswer
    else if s == "showSolution" then ShowSolution
    else if s == "editSolution" then EditSolution
    else if s == "editAnnotations" then EditAnnotations
    else if s == "showAnnotations" then ShowAnnotations
    else Unrecognised
  }

  /** The visibility matrix written out row by row: what each mode shows and lets the user edit. */
  function Matrix(m: Mode): Flags
  {
    match m
    //                     answer         solution       annotations
    //                     edit   visible edit   visible edit   visible
    case EditAnswer =>      Flags(true,  true,  false, false, false, false)
    case ShowSolution =>    Flags(false, true,  false, true,  false, false)
    case EditSolution =>    Flags(false, false, true,  true,  false, false)
    case EditAnnotations => Flags(false, false, false, false, true,  true)
    case ShowAnnotations => Flags(false, false, false, false, false, true)
    case Unrecognised =>    Flags(false, false, false, false, false, false)
  }

  /** Recognised mode names parse back to their mode. */
  lemma ParseModeName(m: Mode)
    ensures m != Unrecognised ==> ParseMode(ModeName(m)) == m
    ensures ParseMode(ModeName(m)) != Unrecognised <==> m != Unrecognised
  {
  }

  /** The constructor's flag computation agrees with the matrix for every string,
      so any unrecognised mode, the empty one included, switches everything off. */
  lemma FlagsFollowMatrix(mode: string)
    ensures FlagsFor(mode) == Matrix(ParseMode(mode))
    ensures ParseMode(mode) == Unrecognised ==> FlagsFor(mode) == Flags(false, false, false, false, false, false)
  {
  }

  /** At most one of the three features is editable, whatever the mode. */
  lemma AtMostOneEditable(mode: string)
    ensures var f := FlagsFor(mode);
            (if f.answerEditable then 1 else 0) + (if f.solutionEditable then 1 else 0)
            + (if f.annotationsEditable then 1 else 0) <= 1
  {
  }
}
