/**
  The text of the generated theme module, and the rule that decides whether
  it is written as TypeScript: the output path's extension, as Node's
  POSIX `path.extname` computes it, is exactly `.ts`.
 */
module Artifact {
  import opened Wrappers

  /** The declaration block a TypeScript artifact carries, so that
      styled-components' `DefaultTheme` is the type of the generated theme. */
  const TypeDeclarations: string :=
    "\ntype StyleTheme = typeof theme\n\ndeclare module 'styled-components' {\n\texport interface DefaultTheme extends StyleTheme {}\n}\n\n"

  const Opening: string := "const theme = "
  const Closing: string := "export default theme"

  /** Everything the template puts after the serialised theme. */
  function Trailer(isTypescript: bool): (r: string)
    ensures |r| == (if isTypescript then |" as const"| + |TypeDeclarations| else 0) + 2 + |Closing|
    ensures r[|r| - |Closing|..] == Closing
    ensures isTypescript ==> r[|r| - |TypeDeclarations| - |Closing|..|r| - |Closing|] == TypeDeclarations
    ensures isTypescript ==> r[..|" as const"|] == " as const"
    ensures isTypescript ==> r[|" as const"|..|" as const"| + 2] == "\n\n"
    ensures !isTypescript ==> r == "\n\n" + Closing
  {
    var middle := if isTypescript then TypeDeclarations else "";
    var head := (if isTypescript then " as const" else "") + "\n\n";
    Pieces(head, middle, Closing);
    head + middle + Closing
  }

  /** The three pieces of `a + b + c` sit where their lengths say. */
  lemma Pieces(a: string, b: string, c: string)
    ensures |a + b + c| == |a| + |b| + |c|
    ensures (a + b + c)[..|a|] == a
    ensures (a + b + c)[|a|..|a| + |b|] == b
    ensures (a + b + c)[|a| + |b|..] == c
  {
  }

  /** The template literal the artifact is written from, around the
      serialised theme `themeText`. */
  function ArtifactText(themeText: string, isTypescript: bool): (r: string)
    ensures |r| == |Opening| + |themeText| + |Trailer(isTypescript)|
    ensures r[..|Opening|] == Opening
    ensures r[|Opening|..|Opening| + |themeText|] == themeText
    ensures r[|Opening| + |themeText|..] == Trailer(isTypescript)
  {
    var trailer := Trailer(isTypescript);
    Pieces(Opening, themeText, trailer);
    Opening + themeText + trailer
  }

  /** Reading an artifact back: the serialised theme between the opening and
      the trailer the format calls for, if the text has that shape. */
  function ThemeTextOf(text: string, isTypescript: bool): Option<string>
  {
    var trailer := Trailer(isTypescript);
    if |text| >= |Opening| + |trailer| && text[..|Opening|] == Opening && text[|text| - |trailer|..] == trailer
    then Some(text[|Opening|..|text| - |trailer|])
    else None
  }

  /** The serialised theme is embedded verbatim: it can be read back from the
      artifact, so two different themes never give the same artifact. */
  lemma ArtifactEmbedsTheme(themeText: string, isTypescript: bool)
    ensures ThemeTextOf(ArtifactText(themeText, isTypescript), isTypescript) == Some(themeText)
  {
    Pieces(Opening, themeText, Trailer(isTypescript));
  }

  /** The TypeScript artifact is the plain one with ` as const` after the
      theme and the declaration block before the closing export. */
  lemma TypedArtifactExtendsPlain(themeText: string)
    ensures |ArtifactText(themeText, true)| == |ArtifactText(themeText, false)| + |" as const"| + |TypeDeclarations|
    ensures ArtifactText(themeText, true)[..|Opening| + |themeText|] == ArtifactText(themeText, false)[..|Opening| + |themeText|]
  {
  }

  /** The last index of `c` in `s`, or -1. */
  function LastIndexOf(s: string, c: char): (r: int)
    ensures -1 <= r < |s|
    ensures r >= 0 ==> s[r] == c
    ensures forall k :: r < k < |s| ==> s[k] != c
  {
    if s == [] then -1
    else if s[|s| - 1] == c then |s| - 1
    else LastIndexOf(s[..|s| - 1], c)
  }

  /** `p` without the separators at its end. */
  function TrimTrailingSlashes(p: string): (r: string)
    ensures |r| <= |p| && r == p[..|r|]
    ensures r == [] || r[|r| - 1] != '/'
    ensures forall k :: |r| <= k < |p| ==> p[k] == '/'
  {
    if p != [] && p[|p| - 1] == '/' then TrimTrailingSlashes(p[..|p| - 1]) else p
  }

  /** The last component of `p`, which is where `path.extname` looks. */
  function Basename(p: string): (b: string)
    ensures forall k :: 0 <= k < |b| ==> b[k] != '/'
  {
    var t := TrimTrailingSlashes(p);
    t[LastIndexOf(t, '/') + 1..]
  }

  /** Node's POSIX `path.extname`: from the last `.` of the last component to
      its end, except that there is none when the component has no `.`,
      starts with its last `.` (a dot file such as `.ts`), or is `..`. */
  function Extname(p: string): (r: string)
    ensures |r| <= |Basename(p)| && r == Basename(p)[|Basename(p)| - |r|..]
    ensures r != "" ==> r[0] == '.' && forall k :: 0 < k < |r| ==> r[k] != '.' && r[k] != '/'
  {
    var b := Basename(p);
    var d := LastIndexOf(b, '.');
    if d <= 0 || b == ".." then "" else b[d..]
  }

  /** A last component that ends with `.ts` has its last `.` there. */
  lemma LastDotOfTsName(b: string)
    requires |b| > 3 && b[|b| - 3..] == ".ts"
    ensures LastIndexOf(b, '.') == |b| - 3
  {
    assert b[|b| - 3] == '.' && b[|b| - 2] != '.' && b[|b| - 1] != '.';
  }

  /** Line 51: the artifact is TypeScript exactly when the last component of
      the output path is longer than `.ts` and ends with `.ts`. */
  function IsTypescript(outputPath: string): (r: bool)
    ensures r <==> var b := Basename(outputPath); |b| > 3 && b[|b| - 3..] == ".ts"
  {
    var b := Basename(outputPath);
    if |b| > 3 && b[|b| - 3..] == ".ts" then
      LastDotOfTsName(b);
      Extname(outputPath) == ".ts"
    else
      Extname(outputPath) == ".ts"
  }
}
