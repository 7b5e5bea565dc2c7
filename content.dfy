/** The role names a message can carry. */
module Roles {
  const User: string := "user"
  const Model: string := "model"
  const Function: string := "function"
  const System: string := "system"
}

/**
 * Multipart message content. Parts are shared objects: lists hold references, and the
 * Text setter of a response writes into its first part in place.
 */
module Contents {
  import opened Wrappers
  import Roles

  /** A message part; only its nullable text is modelled. */
  class Part {
    var Text: Option<string>

    constructor (text: Option<string>)
      ensures Text == text
    {
      Text := text;
    }
  }

  /** The ArgumentNullException a constructor throws, with the name of the null parameter. */
  datatype ArgumentNullError = ArgumentNull(paramName: string)

  class Content {
    /** Nullable: only the constructors are modelled, and each of them leaves a list here. */
    var Parts: Option<seq<Part>>
    var Role: Option<string>
    var ETag: Option<string>

    /** An empty, non-null part list; no role. */
    constructor ()
      ensures Parts == Some([]) && Role == None && ETag == None
    {
      Parts, Role, ETag := Some([]), None, None;
    }

    /** One new part carrying text, which may be null; the role defaults to "user". */
    constructor FromText(text: Option<string>, role: Option<string> := Some(Roles.User))
      ensures Parts.Some? && |Parts.value| == 1 && fresh(Parts.value[0]) && Parts.value[0].Text == text
      ensures Role == role && ETag == None
    {
      var part := new Part(text);
      Parts, Role, ETag := Some([part]), role, None;
    }

    /** The given part itself, not a copy, as the only part. */
    constructor FromPart(part: Part, role: Option<string> := Some(Roles.User))
      ensures Parts == Some([part]) && Role == role && ETag == None
    {
      Parts, Role, ETag := Some([part]), role, None;
    }

    /** The given parts themselves, in their order. */
    constructor FromParts(parts: seq<Part>, role: Option<string> := Some(Roles.User))
      ensures Parts == Some(parts) && Role == role && ETag == None
    {
      Parts, Role, ETag := Some([]), role, None;
      new;
      // AddRange onto the list the parameterless constructor made
      Parts := Some(Parts.value + parts);
      assert [] + parts == parts;
    }
  }

  /** Content(part, role): a null part is rejected with ArgumentNullException. */
  method NewContentFromPart(part: Part?, role: Option<string> := Some(Roles.User)) returns (r: Result<Content, ArgumentNullError>)
    ensures part == null <==> r == Failure(ArgumentNull("part"))
    ensures r.Success? ==> fresh(r.value) && r.value.Parts == Some([part]) && r.value.Role == role
  {
    if part == null {
      return Failure(ArgumentNull("part"));
    }
    var content := new Content.FromPart(part, role);
    r := Success(content);
  }

  /** Content(parts, role): a null sequence is rejected with ArgumentNullException. */
  method NewContentFromParts(parts: Option<seq<Part>>, role: Option<string> := Some(Roles.User))
    returns (r: Result<Content, ArgumentNullError>)
    ensures parts.None? <==> r == Failure(ArgumentNull("parts"))
    ensures r.Success? ==> fresh(r.value) && r.value.Parts == parts && r.value.Role == role
  {
    if parts.None? {
      return Failure(ArgumentNull("parts"));
    }
    var content := new Content.FromParts(parts.value, role);
    r := Success(content);
  }

  class ContentResponse {
    var Parts: seq<Part>
    var Role: Option<string>

    /** No parts; the role is left null. */
    constructor ()
      ensures Parts == [] && Role == None
    {
      Parts, Role := [], None;
    }

    /** One new part carrying text, which may be null; the role defaults to "user". */
    constructor FromText(text: Option<string>, role: Option<string> := Some(Roles.User))
      ensures |Parts| == 1 && fresh(Parts[0]) && Parts[0].Text == text
      ensures Role == role
    {
      var part := new Part(text);
      Parts, Role := [part], role;
    }

    /** The text of the first part, or "" when there is no part or its text is null. */
    function Text(): (t: string)
      reads this, Parts
      // a non-empty text is the first part's; "" is read exactly when there is no first
      // part, or its text is null or empty
      ensures t != "" ==> |Parts| > 0 && Parts[0].Text == Some(t)
      ensures t == "" <==> |Parts| == 0 || Parts[0].Text.None? || Parts[0].Text == Some("")
    {
      if |Parts| > 0 then Parts[0].Text.GetOr("") else ""
    }

    /**
     * Sets the text: on an empty list one new part is added; otherwise the first part's
     * text is overwritten in place and the list stays as it is. A part object that also
     * sits at a later position sees the new text there too; every other part is untouched.
     */
    method SetText(value: Option<string>)
      modifies this, Parts
      ensures Role == old(Role)
      ensures old(Parts) == [] ==> |Parts| == 1 && fresh(Parts[0]) && Parts[0].Text == value
      ensures old(Parts) != [] ==>
                && Parts == old(Parts) && Parts[0].Text == value
                && forall i :: 0 <= i < |Parts| && Parts[i] != Parts[0] ==> Parts[i].Text == old(Parts[i].Text)
      // reading back gives the value set, "" for null
      ensures Text() == value.GetOr("")
    {
      if |Parts| == 0 {
        var part := new Part(value);
        Parts := Parts + [part];
      } else {
        Parts[0].Text := value;
      }
    }
  }

  /**
   * An empty response reads as ""; text set on a response built from a text replaces that
   * text and adds no part, and a second set, to null, reads back as "".
   */
  method ResponseTextScenario() returns (empty: string, first: string, second: string, parts: nat)
    ensures empty == "" && first == "b" && second == "" && parts == 1
  {
    var blank := new ContentResponse();
    empty := blank.Text();
    var response := new ContentResponse.FromText(Some("a"));
    response.SetText(Some("b"));
    first := response.Text();
    response.SetText(None);
    second := response.Text();
    parts := |response.Parts|;
  }
}
