/** The process-wide dispatch mode and the `@ConditionalOnEnumProperty` condition
    (config/OnPropertyEnumCondition.java) that gates the accelerator's beans on it. */
module Modes {
  import opened Common

  /** `MvcAcceleratorConfig.Mode`. */
  datatype Mode = ALL | ANNOTATED | NONE

  /** The mode a freshly bound configuration holds (`BaseMode.mode`). */
  const DefaultMode: Mode := ANNOTATED

  /** `Mode.name()`. */
  function Name(m: Mode): string {
    match m
    case ALL => "ALL"
    case ANNOTATED => "ANNOTATED"
    case NONE => "NONE"
  }

  /** `Mode.valueOf`: the constant with exactly this name; `None` stands for the
      `IllegalArgumentException` thrown for any other string. */
  function ValueOf(s: string): (r: Option<Mode>)
    ensures forall m :: r == Some(m) <==> Name(m) == s
  {
    if s == "ALL" then Some(ALL)
    else if s == "ANNOTATED" then Some(ANNOTATED)
    else if s == "NONE" then Some(NONE)
    else None
  }

  /** The raw property text as the condition reads it: trimmed, upper-cased, looked up. */
  function ParseMode(raw: string): Option<Mode> {
    ValueOf(ToUpper(Trim(raw)))
  }

  /** `OnPropertyEnumCondition.matches`. `annotationPresent` says whether the
      element carries `@ConditionalOnEnumProperty`, `havingValues` is its accepted
      list and `property` the environment's value of its `name` (None when unset). */
  function Matches(annotationPresent: bool, havingValues: seq<Mode>, property: Option<string>): (r: bool)
    ensures r <==> annotationPresent && property.Some?
                   && exists m :: ParseMode(property.value) == Some(m) && m in havingValues
  {
    if !annotationPresent then false
    else if property.None? then false
    else
      match ParseMode(property.value)
      case None => false
      case Some(mode) => mode in havingValues
  }

  /** The exact spelling of every mode parses back to it. */
  lemma ParseName(m: Mode)
    ensures ParseMode(Name(m)) == Some(m)
  {
    var n := Name(m);
    match m {
      case ALL => UpperFixed(n);
      case ANNOTATED => UpperFixed(n);
      case NONE => UpperFixed(n);
    }
    ParsePadded("", n, "", m);
    assert "" + n + "" == n;
  }

  /** Upper-casing leaves a text of capital letters as it is. */
  lemma UpperFixed(s: string)
    requires forall i :: 0 <= i < |s| ==> 'A' <= s[i] <= 'Z'
    ensures ToUpper(s) == s
  {
  }

  /** The empty string (also after trimming) names no mode: the condition is false, not an error. */
  lemma EmptyValueDoesNotMatch(havingValues: seq<Mode>, ws: string)
    requires forall i :: 0 <= i < |ws| ==> IsTrimmed(ws[i])
    ensures ParseMode(ws) == None
    ensures !Matches(true, havingValues, Some(ws))
  {
    TrimAllWhite(ws);
  }

  lemma TrimAllWhite(ws: string)
    requires forall i :: 0 <= i < |ws| ==> IsTrimmed(ws[i])
    ensures Trim(ws) == ""
  {
  }

  /** Surrounding control characters and spaces, and lower-case letters, are
      accepted: `pre + t + post` parses to `m` whenever `t` upper-cases to its name. */
  lemma ParsePadded(pre: string, t: string, post: string, m: Mode)
    requires forall i :: 0 <= i < |pre| ==> IsTrimmed(pre[i])
    requires forall i :: 0 <= i < |post| ==> IsTrimmed(post[i])
    requires ToUpper(t) == Name(m)
    ensures ParseMode(pre + t + post) == Some(m)
  {
    NameIsCapitals(m);
    UpperEnds(t, Name(m));
    TrimPadded(pre, t, post);
  }

  /** Every mode's name is a non-empty run of capital letters. */
  lemma NameIsCapitals(m: Mode)
    ensures |Name(m)| > 0 && forall i :: 0 <= i < |Name(m)| ==> 'A' <= Name(m)[i] <= 'Z'
  {
    match m {
      case ALL =>
      case ANNOTATED =>
      case NONE =>
    }
  }

  /** A text that upper-cases to capitals neither starts nor ends with white space. */
  lemma UpperEnds(t: string, n: string)
    requires ToUpper(t) == n && |n| > 0 && forall i :: 0 <= i < |n| ==> 'A' <= n[i] <= 'Z'
    ensures |t| > 0 && !IsTrimmed(t[0]) && !IsTrimmed(t[|t| - 1])
  {
    assert UpperChar(t[0]) == n[0];
    assert UpperChar(t[|t| - 1]) == n[|t| - 1];
  }

  lemma TrimPadded(pre: string, t: string, post: string)
    requires forall i :: 0 <= i < |pre| ==> IsTrimmed(pre[i])
    requires forall i :: 0 <= i < |post| ==> IsTrimmed(post[i])
    requires |t| > 0 && !IsTrimmed(t[0]) && !IsTrimmed(t[|t| - 1])
    ensures Trim(pre + t + post) == t
  {
    TrimStartPadded(pre, t + post);
    assert pre + t + post == pre + (t + post);
    TrimEndPadded(t, post);
  }

  lemma {:induction false} TrimStartPadded(pre: string, s: string)
    requires forall i :: 0 <= i < |pre| ==> IsTrimmed(pre[i])
    requires s != [] && !IsTrimmed(s[0])
    ensures TrimStart(pre + s) == s
  {
    if pre != [] {
      var t := pre + s;
      assert t[0] == pre[0] && IsTrimmed(t[0]);
      assert t[1..] == pre[1..] + s;
      assert TrimStart(t) == TrimStart(t[1..]);
      TrimStartPadded(pre[1..], s);
    } else {
      assert pre + s == s;
    }
  }

  lemma {:induction false} TrimEndPadded(s: string, post: string)
    requires forall i :: 0 <= i < |post| ==> IsTrimmed(post[i])
    requires s != [] && !IsTrimmed(s[|s| - 1])
    ensures TrimEnd(s + post) == s
  {
    if post != [] {
      var p := post[..|post| - 1];
      assert (s + post)[..|s + post| - 1] == s + p;
      TrimEndPadded(s, p);
    }
  }

  /** " all " is read as ALL. */
  lemma PaddedLowerCaseAll()
    ensures ParseMode(" all ") == Some(ALL)
  {
    assert " all " == " " + "all" + " ";
    assert ToUpper("all") == "ALL";
    ParsePadded(" ", "all", " ", ALL);
  }
}
