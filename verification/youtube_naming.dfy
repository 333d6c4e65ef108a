/**
 * The naming helpers of `youtube_tool.py`: `sanitizar_nome`, which turns a
 * video title into a file name, and `_campos_snippet`, which reads the text
 * and the clamped times of one caption.
 */
module Naming {
  import opened Wrappers
  import opened Text
  import opened Segments

  /** The characters the cleaning pattern removes: backslash, slash, `*`, `?`, `:`, `"`, `<`, `>` and `|`. */
  predicate Forbidden(c: char)
  {
    c == '\\' || c == '/' || c == '*' || c == '?' || c == ':' || c == '"' || c == '<' || c == '>' || c == '|'
  }

  predicate NoForbidden(s: string) { forall i :: 0 <= i < |s| ==> !Forbidden(s[i]) }

  /** `re.sub` with the cleaning pattern and an empty replacement: every other character, in order. */
  function RemoveForbidden(s: string): (r: string)
    ensures |r| <= |s| && NoForbidden(r)
  {
    if s == [] then []
    else (if Forbidden(s[0]) then [] else [s[0]]) + RemoveForbidden(s[1..])
  }

  /** The removal keeps what it does not remove, in order: it distributes over concatenation. */
  lemma {:induction false} RemoveForbiddenAppend(a: string, b: string)
    ensures RemoveForbidden(a + b) == RemoveForbidden(a) + RemoveForbidden(b)
  {
    if a == [] {
      assert a + b == b;
    } else {
      assert (a + b)[0] == a[0];
      assert (a + b)[1..] == a[1..] + b;
      RemoveForbiddenAppend(a[1..], b);
    }
  }

  /** A name without forbidden characters is left alone. */
  lemma {:induction false} RemoveForbiddenFixed(s: string)
    requires NoForbidden(s)
    ensures RemoveForbidden(s) == s
  {
    if s != [] {
      RemoveForbiddenFixed(s[1..]);
    }
  }

  /** `". "`, the characters stripped from both ends. */
  const DotSpace: CharClass := OneOf({'.', ' '})

  const MaxNameLength: nat := 150

  const DefaultName: string := "video"

  /** The name before truncation: forbidden characters removed, dots and spaces stripped. */
  function Cleaned(nome: string): string
  {
    StripChars(RemoveForbidden(nome), DotSpace)
  }

  /**
   * `sanitizar_nome`: the cleaned name cut to 150 characters, or "video"
   * when nothing is left.
   */
  function Sanitize(nome: string): (r: string)
    ensures 0 < |r| <= MaxNameLength
    ensures NoForbidden(r)
    ensures r[0] != '.' && r[0] != ' '
    ensures |Cleaned(nome)| <= MaxNameLength ==> r[|r| - 1] != '.' && r[|r| - 1] != ' '
    ensures Cleaned(nome) == [] ==> r == DefaultName
    ensures Cleaned(nome) != [] ==> 
      |r| == (if |Cleaned(nome)| <= MaxNameLength then |Cleaned(nome)| else MaxNameLength) && r == Cleaned(nome)[..|r|]
  {
    var n := Cleaned(nome);
    CleanedHasNoForbidden(nome);
    if n == [] then DefaultName
    else if |n| <= MaxNameLength then n
    else n[..MaxNameLength]
  }

  lemma CleanedHasNoForbidden(nome: string)
    ensures NoForbidden(Cleaned(nome))
  {
    var i := StripCharsSlice(RemoveForbidden(nome), DotSpace);
  }

  /** Sanitizing twice is sanitizing once, as long as the cleaned name fits in 150 characters. */
  lemma SanitizeIdempotent(nome: string)
    requires |Cleaned(nome)| <= MaxNameLength
    ensures Sanitize(Sanitize(nome)) == Sanitize(nome)
  {
    var r := Sanitize(nome);
    assert r[|r| - 1] != '.' && r[|r| - 1] != ' ';
    SanitizeFixed(r);
  }

  /** A name that is already clean and short enough is its own sanitized form. */
  lemma SanitizeFixed(r: string)
    requires 0 < |r| <= MaxNameLength && NoForbidden(r)
    requires r[0] != '.' && r[0] != ' ' && r[|r| - 1] != '.' && r[|r| - 1] != ' '
    ensures Sanitize(r) == r
  {
    RemoveForbiddenFixed(r);
    StripCharsFixed(r, DotSpace);
    assert Cleaned(r) == r;
  }

  /**
   * Without the bound it is not: a cleaned name of 151 characters whose
   * 150th is a dot is cut to end in that dot, which a second pass strips.
   */
  lemma SanitizeNotIdempotent()
    ensures exists nome :: Sanitize(Sanitize(nome)) != Sanitize(nome)
  {
    var body := Repeat('a', 149);
    var nome := body + ".b";
    assert nome[0] == 'a' && nome[|nome| - 1] == 'b';
    assert NoForbidden(nome);
    RemoveForbiddenFixed(nome);
    StripCharsFixed(nome, DotSpace);
    assert Cleaned(nome) == nome;
    var r := Sanitize(nome);
    assert r == nome[..150] && r[149] == '.';
    RemoveForbiddenFixed(r);
    assert Sanitize(r)[|Sanitize(r)| - 1] != '.';
    assert Sanitize(Sanitize(nome)) != Sanitize(nome);
  }

  // ---------------------------------------------------------------------
  // Caption fields
  // ---------------------------------------------------------------------

  /**
   * A caption as the transcript API hands it over, as a dict or as an
   * object: a field it does not have is `None`.
   */
  datatype Snippet = Snippet(text: Option<string>, start: Option<real>, duration: Option<real>)

  /** The caption's text and window as `_campos_snippet` returns them. */
  datatype Fields = Fields(text: string, start: real, duration: real)

  /**
   * `_campos_snippet`: a missing text is "", a missing time is 0.0, and
   * both times are clamped at 0.0.
   */
  function SnippetFields(s: Snippet): (f: Fields)
    ensures f.start >= 0.0 && f.duration >= 0.0
    ensures f.text == if s.text.Some? then s.text.value else ""
    ensures s.start.Some? && s.start.value >= 0.0 ==> f.start == s.start.value
    ensures s.start.None? || s.start.value <= 0.0 ==> f.start == 0.0
    ensures s.duration.Some? && s.duration.value >= 0.0 ==> f.duration == s.duration.value
    ensures s.duration.None? || s.duration.value <= 0.0 ==> f.duration == 0.0
  {
    Fields(s.text.GetOr(""), Max(s.start.GetOr(0.0), 0.0), Max(s.duration.GetOr(0.0), 0.0))
  }
}
