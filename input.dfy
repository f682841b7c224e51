/**
 * The labelled text input: the element id it derives and the message it shows
 * under the field.
 */
module Input {
  import opened Wrappers
  import opened Text

  /** `s.replace(/\s+/g, '-')`: every maximal run of whitespace becomes one '-'. */
  function CollapseWhitespace(s: string): (r: string)
    ensures NoWhitespace(r)
    ensures NoWhitespace(s) ==> r == s
    ensures |r| <= |s|
    decreases |s|
  {
    if s == [] then []
    else if IsWhitespace(s[0]) then
      var rest := TrimStart(s);
      assert |rest| < |s| by {
        assert rest == [] || rest[0] == s[|s| - |rest|];
      }
      "-" + CollapseWhitespace(rest)
    else [s[0]] + CollapseWhitespace(s[1..])
  }

  /** A whole run of whitespace turns into a single '-', whatever its length. */
  lemma CollapseRun(w: string, x: string)
    requires w != [] && AllWhitespace(w)
    requires x == [] || !IsWhitespace(x[0])
    ensures CollapseWhitespace(w + x) == "-" + CollapseWhitespace(x)
  {
    assert (w + x)[0] == w[0];
    TrimStartSkips(w, x);
  }

  /** A character that is not whitespace is kept as it is. */
  lemma CollapseKeepsChar(c: char, rest: string)
    requires !IsWhitespace(c)
    ensures CollapseWhitespace([c] + rest) == [c] + CollapseWhitespace(rest)
  {
    assert ([c] + rest)[1..] == rest;
  }

  /** Splitting off the first character of a non-empty left operand. */
  lemma ConsAppend(a: string, x: string, y: string)
    requires a != []
    ensures a + x + y == [a[0]] + (a[1..] + x + y)
  {
  }

  /** Text without whitespace next to a run: the run is replaced and the text kept. */
  lemma {:induction false} CollapseKeepsWords(a: string, w: string, b: string)
    requires NoWhitespace(a) && w != [] && AllWhitespace(w)
    requires b == [] || !IsWhitespace(b[0])
    ensures CollapseWhitespace(a + w + b) == a + "-" + CollapseWhitespace(b)
    decreases |a|
  {
    if a == [] {
      assert a + w + b == w + b;
      CollapseRun(w, b);
    } else {
      assert NoWhitespace(a[1..]) by {
        forall i | 0 <= i < |a| - 1 ensures !IsWhitespace(a[1..][i]) {
          assert a[1..][i] == a[i + 1];
        }
      }
      CollapseKeepsWords(a[1..], w, b);
      ConsAppend(a, w, b);
      ConsAppend(a, "-", CollapseWhitespace(b));
      CollapseKeepsChar(a[0], a[1..] + w + b);
    }
  }

  /** `label?.toLowerCase().replace(/\s+/g, '-')`. */
  function Slug(text: string): (r: string)
    ensures NoWhitespace(r)
  {
    CollapseWhitespace(ToLower(text))
  }

  /** `inputId = id || label?.…`: a non-empty id wins, otherwise the label's slug, and
      nothing when there is no label either. */
  function InputId(id: Option<string>, labelText: Option<string>): (r: Option<string>)
    ensures id.Some? && id.value != "" ==> r == id
    ensures !(id.Some? && id.value != "") ==> (r.Some? <==> labelText.Some?)
    ensures !(id.Some? && id.value != "") && labelText.Some? ==> r == Some(Slug(labelText.value))
  {
    if id.Some? && id.value != "" then id
    else if labelText.Some? then Some(Slug(labelText.value))
    else None
  }

  /** An id derived from the label never contains whitespace. */
  lemma DerivedIdHasNoWhitespace(id: Option<string>, labelText: Option<string>)
    requires !(id.Some? && id.value != "")
    requires InputId(id, labelText).Some?
    ensures NoWhitespace(InputId(id, labelText).value)
  {
  }

  /** The message under the field. */
  datatype Message = ErrorText(text: string) | HelperText(text: string)

  /** JavaScript truthiness of an optional string. */
  predicate Truthy(s: Option<string>) {
    s.Some? && s.value != ""
  }

  /** `(error || helperText) && (error ? … : …)`: the error wins over the helper text. */
  function ShownMessage(error: Option<string>, helperText: Option<string>): (m: Option<Message>)
    ensures m.None? <==> !Truthy(error) && !Truthy(helperText)
    ensures Truthy(error) ==> m == Some(ErrorText(error.value))
    ensures !Truthy(error) && Truthy(helperText) ==> m == Some(HelperText(helperText.value))
  {
    if Truthy(error) || Truthy(helperText) then
      if Truthy(error) then Some(ErrorText(error.value)) else Some(HelperText(helperText.value))
    else None
  }
}
