/** Worked shapes of OpenAPI paths and the names both rules give them. */
module PathNameExamples {
  import opened PathNames

  /** A name without slashes at its ends is left alone by stripping. */
  lemma StripFixesInnerSlashes(name: string)
    requires name != [] && name[0] != '/' && name[|name| - 1] != '/'
    ensures Strip(name) == name
  {
  }

  /** One leading slash in front of such a name makes no difference to the
      name it gets. */
  lemma LeadingSlashIrrelevant(rule: BraceRule, name: string)
    requires name != [] && name[0] != '/' && name[|name| - 1] != '/'
    ensures Normalised(rule, "/" + name) == Normalised(rule, name)
  {
    StripOneLeadingSlash(name);
    StripFixesInnerSlashes(name);
  }

  /** Two slash-free parts joined by a slash are joined by an underscore. */
  lemma JoinWithUnderscore(a: string, b: string)
    requires '/' !in a && '/' !in b
    ensures ReplaceAll(a + "/" + b, '/', '_') == a + "_" + b
  {
    ReplaceAllConcat(a + "/", b, '/', '_');
    ReplaceAllConcat(a, "/", '/', '_');
    ReplaceAllAbsent(a, '/', '_');
    ReplaceAllAbsent(b, '/', '_');
  }

  /** A slash-free name without braces is its own safe name under either rule. */
  lemma CleanNameIsItsOwnName(rule: BraceRule, name: string)
    requires Segment(name)
    ensures SafeName(rule, name) == name
  {
    NormalisedFixesCleanNames(rule, name);
  }

  /** A name whose ends are not slashes, and whose normalised form is a clean
      name, gets that name with or without one leading slash. */
  lemma NameOfRootedPath(rule: BraceRule, name: string, result: string)
    requires name != [] && name[0] != '/' && name[|name| - 1] != '/'
    requires Normalised(rule, name) == result && result != []
    ensures SafeName(rule, "/" + name) == result
  {
    LeadingSlashIrrelevant(rule, name);
  }

  /** `/a/b` and `/a_b` collide on the name `a_b` under both rules. */
  lemma SlashAndUnderscoreCollide(rule: BraceRule, first: string, second: string)
    requires Segment(first) && Segment(second)
    ensures SafeName(rule, "/" + first + "/" + second) == first + "_" + second
    ensures SafeName(rule, "/" + first + "_" + second) == first + "_" + second
  {
    var nested := first + "/" + second;
    var flat := first + "_" + second;
    assert Segment(flat);
    assert "/" + first + "/" + second == "/" + nested;
    assert "/" + first + "_" + second == "/" + flat;
    StripFixesInnerSlashes(nested);
    JoinWithUnderscore(first, second);
    NormalisedFixesCleanNames(rule, flat);
    assert Normalised(rule, nested) == flat;
    NameOfRootedPath(rule, nested, flat);
    CleanNameIsItsOwnName(rule, flat);
    NameOfRootedPath(rule, flat, flat);
  }

  /** Deleting the opening braces of `prefix{parameter}` removes the one
      in front of the parameter. */
  lemma DeleteOpeningBrace(prefix: string, parameter: string)
    requires Segment(prefix) && Segment(parameter)
    ensures DeleteAll(prefix + ("{" + parameter + "}"), '{') == prefix + (parameter + "}")
  {
    var rest := parameter + "}";
    var tail := "{" + rest;
    assert '{' !in rest;
    assert "{" + parameter + "}" == tail;
    assert DeleteAll(tail, '{') == rest by {
      assert tail[0] == '{' && tail[1..] == rest;
    }
    DeleteAllConcat(prefix, tail, '{');
  }

  /** Deleting the closing braces of `name}` leaves `name`. */
  lemma DeleteClosingBrace(name: string)
    requires '}' !in name
    ensures DeleteAll(name + "}", '}') == name
  {
    DeleteAllConcat(name, "}", '}');
    assert DeleteAll("}", '}') == [];
  }

  /** Deleting the braces around a parameter leaves its name. */
  lemma DeleteParameterBraces(prefix: string, parameter: string)
    requires Segment(prefix) && Segment(parameter)
    ensures DeleteAll(DeleteAll(prefix + ("{" + parameter + "}"), '{'), '}') == prefix + parameter
  {
    DeleteOpeningBrace(prefix, parameter);
    assert prefix + (parameter + "}") == prefix + parameter + "}";
    DeleteClosingBrace(prefix + parameter);
  }

  /** How `/resource/{parameter}` and its two names are put together. */
  lemma ParameterisedShape(resource: string, parameter: string)
    ensures "/" + resource + "/{" + parameter + "}" == "/" + (resource + "/" + ("{" + parameter + "}"))
    ensures resource + "_{" + parameter + "}" == resource + "_" + ("{" + parameter + "}")
  {
  }

  /** The names of `resource/{parameter}` before the fallback. */
  lemma NormalisedParameterised(resource: string, parameter: string)
    requires Segment(resource) && Segment(parameter)
    ensures Normalised(KeepBraces, resource + "/" + ("{" + parameter + "}")) == resource + "_" + ("{" + parameter + "}")
    ensures Normalised(StripBraces, resource + "/" + ("{" + parameter + "}")) == resource + "_" + parameter
  {
    var tail := "{" + parameter + "}";
    var inner := resource + "/" + tail;
    assert '/' !in tail;
    StripFixesInnerSlashes(inner);
    JoinWithUnderscore(resource, tail);
    DeleteParameterBraces(resource + "_", parameter);
  }

  /** `/users/{id}`: one resource and one path parameter. local.py gives
      `users_id`, split_openapi.py `users_{id}`. */
  lemma ParameterisedPath(resource: string, parameter: string)
    requires Segment(resource) && Segment(parameter)
    ensures SafeName(StripBraces, "/" + resource + "/{" + parameter + "}") == resource + "_" + parameter
    ensures SafeName(KeepBraces, "/" + resource + "/{" + parameter + "}") == resource + "_{" + parameter + "}"
  {
    var inner := resource + "/" + ("{" + parameter + "}");
    ParameterisedShape(resource, parameter);
    NormalisedParameterised(resource, parameter);
    NameOfRootedPath(KeepBraces, inner, resource + "_" + ("{" + parameter + "}"));
    NameOfRootedPath(StripBraces, inner, resource + "_" + parameter);
  }

  /** Two slash-free parts joined by two slashes are joined by two
      underscores. */
  lemma JoinWithTwoUnderscores(a: string, b: string)
    requires '/' !in a && '/' !in b
    ensures ReplaceAll(a + "//" + b, '/', '_') == a + "__" + b
  {
    ReplaceAllConcat(a + "//", b, '/', '_');
    ReplaceAllConcat(a, "//", '/', '_');
    ReplaceAllAbsent(a, '/', '_');
    ReplaceAllAbsent(b, '/', '_');
    assert ReplaceAll("//", '/', '_') == "__";
  }

  /** An empty segment is not dropped: `/a//b` gives `a__b` under both rules. */
  lemma DoubleSlashKeepsEmptySegment(rule: BraceRule, first: string, second: string)
    requires Segment(first) && Segment(second)
    ensures SafeName(rule, "/" + first + "//" + second) == first + "__" + second
  {
    var inner := first + "//" + second;
    var joined := first + "__" + second;
    assert "/" + first + "//" + second == "/" + inner;
    assert Normalised(rule, inner) == joined by {
      assert Segment(joined);
      StripFixesInnerSlashes(inner);
      JoinWithTwoUnderscores(first, second);
      NormalisedFixesCleanNames(rule, joined);
    }
    NameOfRootedPath(rule, inner, joined);
  }
}
