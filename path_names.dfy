/** How an OpenAPI path such as `/users/{id}` becomes the base name of the
    fragment file it is written to. Both scripts strip the slashes at both
    ends and turn every inner slash into an underscore; `local.py` then also
    deletes every brace. An empty result is replaced by `root`. */
module PathNames {

  /** Every character of `s` is one of `cs`. */
  predicate OnlyOf(s: string, cs: set<char>) {
    forall k :: 0 <= k < |s| ==> s[k] in cs
  }

  /** How many slashes `s` starts with. */
  function LeadingSlashes(s: string): (n: nat)
    ensures n <= |s|
    ensures forall k :: 0 <= k < n ==> s[k] == '/'
    ensures n < |s| ==> s[n] != '/'
  {
    if s == [] || s[0] != '/' then 0 else 1 + LeadingSlashes(s[1..])
  }

  /** How many slashes `s` ends with. */
  function TrailingSlashes(s: string): (n: nat)
    ensures n <= |s|
    ensures forall k :: |s| - n <= k < |s| ==> s[k] == '/'
    ensures n < |s| ==> s[|s| - 1 - n] != '/'
  {
    if s == [] || s[|s| - 1] != '/' then 0 else 1 + TrailingSlashes(s[..|s| - 1])
  }

  /** Python's `s.strip("/")`: the slashes at both ends removed. The result
      is empty exactly when `s` is made only of slashes. */
  function Strip(s: string): (r: string)
    ensures r == [] <==> OnlyOf(s, {'/'})
    ensures r != [] ==> r[0] != '/' && r[|r| - 1] != '/'
    ensures '/' !in s ==> r == s
  {
    var front := LeadingSlashes(s);
    if front == |s| then []
    else s[front..|s| - TrailingSlashes(s)]
  }

  /** Python's `s.replace(target, replacement)` for one-character arguments. */
  function ReplaceAll(s: string, target: char, replacement: char): (r: string)
    ensures |r| == |s|
    ensures forall k :: 0 <= k < |s| ==> r[k] == (if s[k] == target then replacement else s[k])
  {
    if s == [] then []
    else [if s[0] == target then replacement else s[0]] + ReplaceAll(s[1..], target, replacement)
  }

  /** Python's `s.replace(c, "")`: every occurrence of `c` deleted, every
      other character kept. */
  function DeleteAll(s: string, c: char): (r: string)
    ensures c !in r
    ensures forall x :: x in r <==> x in s && x != c
    ensures c !in s ==> r == s
  {
    if s == [] then []
    else
      assert s == [s[0]] + s[1..];
      (if s[0] == c then [] else [s[0]]) + DeleteAll(s[1..], c)
  }

  /** Which of the two scripts' naming rules is meant. */
  datatype BraceRule =
    | KeepBraces   // Scripts/split_openapi.py: braces survive
    | StripBraces  // Scripts/local.py: braces are deleted

  /** The name before the `root` fallback is applied. */
  function Normalised(rule: BraceRule, path: string): (r: string)
    ensures '/' !in r
    ensures rule == StripBraces ==> '{' !in r && '}' !in r
  {
    var joined := ReplaceAll(Strip(path), '/', '_');
    assert '/' !in joined;
    if rule == KeepBraces then joined
    else
      var withoutOpen := DeleteAll(joined, '{');
      assert '/' !in withoutOpen;
      DeleteAll(withoutOpen, '}')
  }

  /** The name used when normalisation leaves nothing. */
  const Fallback: string := "root"

  /** The base name (without `.yaml`) of the file a path's fragment is
      written to; never empty and never holding a slash. */
  function SafeName(rule: BraceRule, path: string): (r: string)
    ensures r != []
    ensures '/' !in r
    ensures rule == StripBraces ==> '{' !in r && '}' !in r
  {
    var n := Normalised(rule, path);
    if n == [] then Fallback else n
  }

  // ---------------------------------------------------------------------
  // Helper facts about the string operations

  /** Stripping keeps every character other than the slash, with its count. */
  lemma StripKeepsCount(s: string, c: char)
    requires c != '/'
    ensures multiset(Strip(s))[c] == multiset(s)[c]
  {
    var front := LeadingSlashes(s);
    if front == |s| {
      SlashesHaveNoOther(s, c);
    } else {
      var back := |s| - TrailingSlashes(s);
      assert s == s[..front] + s[front..back] + s[back..];
      SlashesHaveNoOther(s[..front], c);
      SlashesHaveNoOther(s[back..], c);
    }
  }

  lemma SlashesHaveNoOther(s: string, c: char)
    requires OnlyOf(s, {'/'}) && c != '/'
    ensures multiset(s)[c] == 0
  {
    assert c !in s;
  }

  /** `Strip` removes nothing but end slashes: the path is a run of
      slashes, the result, and another run of slashes. With the result
      neither starting nor ending in a slash, this pins `Strip` down. */
  lemma StripRemovesOnlyEndSlashes(s: string)
    ensures LeadingSlashes(s) + |Strip(s)| <= |s|
    ensures s[LeadingSlashes(s)..LeadingSlashes(s) + |Strip(s)|] == Strip(s)
    ensures OnlyOf(s[..LeadingSlashes(s)], {'/'})
    ensures OnlyOf(s[LeadingSlashes(s) + |Strip(s)|..], {'/'})
  {
    var front := LeadingSlashes(s);
    if front < |s| {
      var back := |s| - TrailingSlashes(s);
      assert front < back;
      assert s[back..] == s[front + |Strip(s)|..];
    }
  }

  /** Deleting keeps every other character with its count. */
  lemma {:induction false} DeleteAllKeepsCount(s: string, c: char, x: char)
    requires x != c
    ensures multiset(DeleteAll(s, c))[x] == multiset(s)[x]
  {
    if s != [] {
      assert s == [s[0]] + s[1..];
      DeleteAllKeepsCount(s[1..], c, x);
    }
  }

  /** Replacing keeps every character other than the two involved, with its count. */
  lemma {:induction false} ReplaceAllKeepsCount(s: string, target: char, replacement: char, c: char)
    requires c != target && c != replacement
    ensures multiset(ReplaceAll(s, target, replacement))[c] == multiset(s)[c]
  {
    if s != [] {
      assert s == [s[0]] + s[1..];
      ReplaceAllKeepsCount(s[1..], target, replacement, c);
    }
  }

  /** Replacing a character that does not occur changes nothing. */
  lemma ReplaceAllAbsent(s: string, target: char, replacement: char)
    requires target !in s
    ensures ReplaceAll(s, target, replacement) == s
  {
  }

  /** Replacing distributes over concatenation. */
  lemma {:induction false} ReplaceAllConcat(a: string, b: string, target: char, replacement: char)
    ensures ReplaceAll(a + b, target, replacement) == ReplaceAll(a, target, replacement) + ReplaceAll(b, target, replacement)
  {
    var r := ReplaceAll(a + b, target, replacement);
    var q := ReplaceAll(a, target, replacement) + ReplaceAll(b, target, replacement);
    assert |r| == |q|;
    forall k | 0 <= k < |r| ensures r[k] == q[k] {
      if k < |a| {
        assert (a + b)[k] == a[k];
      } else {
        assert (a + b)[k] == b[k - |a|];
      }
    }
  }

  /** Deleting distributes over concatenation. */
  lemma {:induction false} DeleteAllConcat(a: string, b: string, c: char)
    ensures DeleteAll(a + b, c) == DeleteAll(a, c) + DeleteAll(b, c)
  {
    if a != [] {
      var head := if a[0] == c then [] else [a[0]];
      assert (a + b)[0] == a[0];
      assert (a + b)[1..] == a[1..] + b;
      assert DeleteAll(a + b, c) == head + DeleteAll(a[1..] + b, c);
      assert DeleteAll(a, c) == head + DeleteAll(a[1..], c);
      DeleteAllConcat(a[1..], b, c);
    } else {
      assert a + b == b;
    }
  }

  /** Stripping a path that is one slash followed by a name without slashes
      at its ends gives that name. */
  lemma StripOneLeadingSlash(name: string)
    requires name != [] && name[0] != '/' && name[|name| - 1] != '/'
    ensures Strip("/" + name) == name
  {
    assert ("/" + name)[1..] == name;
  }

  // ---------------------------------------------------------------------
  // Properties of the two naming rules

  /** Under split_openapi.py's rule the fallback is taken exactly when the
      path consists of slashes only (the empty path included). */
  lemma KeepBracesFallbackExactlyForSlashes(path: string)
    ensures Normalised(KeepBraces, path) == [] <==> OnlyOf(path, {'/'})
  {
  }

  /** Under local.py's rule the fallback is taken exactly when what remains
      after stripping the end slashes is made of braces only (so `/{}` and
      `//` fall back, while `{/}` becomes `_`). */
  lemma {:induction false} StripBracesFallbackExactlyForBraces(path: string)
    ensures Normalised(StripBraces, path) == [] <==> OnlyOf(Strip(path), {'{', '}'})
  {
    var stripped := Strip(path);
    var joined := ReplaceAll(stripped, '/', '_');
    var withoutOpen := DeleteAll(joined, '{');
    var n := DeleteAll(withoutOpen, '}');
    assert Normalised(StripBraces, path) == n;
    if n == [] {
      forall k | 0 <= k < |stripped| ensures stripped[k] in {'{', '}'} {
        assert joined[k] in joined;
      }
    } else {
      var x := n[0];
      assert x in n && x != '{' && x != '}';
      assert x in joined;
      var k :| 0 <= k < |joined| && joined[k] == x;
      assert stripped[k] !in {'{', '}'};
    }
  }

  /** split_openapi.py keeps every brace of the path: `/users/{id}` gives
      `users_{id}`. */
  lemma {:induction false} KeepBracesPreservesBraces(path: string)
    ensures multiset(SafeName(KeepBraces, path))['{'] == multiset(path)['{']
    ensures multiset(SafeName(KeepBraces, path))['}'] == multiset(path)['}']
  {
    var stripped := Strip(path);
    if stripped == [] {
      assert '{' !in path && '}' !in path by {
        assert OnlyOf(path, {'/'});
      }
      assert '{' !in Fallback && '}' !in Fallback;
    } else {
      StripKeepsCount(path, '{');
      StripKeepsCount(path, '}');
      ReplaceAllKeepsCount(stripped, '/', '_', '{');
      ReplaceAllKeepsCount(stripped, '/', '_', '}');
    }
  }

  /** A name that holds no slash comes out of `Normalised` unchanged; with
      local.py's rule it must hold no brace either. */
  lemma NormalisedFixesCleanNames(rule: BraceRule, name: string)
    requires '/' !in name
    requires rule == StripBraces ==> '{' !in name && '}' !in name
    ensures Normalised(rule, name) == name
  {
    ReplaceAllAbsent(name, '/', '_');
  }

  /** Normalising a safe name again changes nothing, under either rule and
      including the fallback `root`. */
  lemma SafeNameIdempotent(rule: BraceRule, path: string)
    ensures SafeName(rule, SafeName(rule, path)) == SafeName(rule, path)
  {
    NormalisedFixesCleanNames(rule, SafeName(rule, path));
  }

  /** local.py's name is split_openapi.py's name with local.py's rule applied
      on top: brace deletion is the only difference between the two. */
  lemma StripBracesAfterKeepBraces(path: string)
    ensures SafeName(StripBraces, path) == SafeName(StripBraces, SafeName(KeepBraces, path))
  {
    var remote := SafeName(KeepBraces, path);
    ReplaceAllAbsent(remote, '/', '_');
    if Normalised(KeepBraces, path) == [] {
      assert Normalised(StripBraces, path) == [];
      assert remote == Fallback;
      NormalisedFixesCleanNames(StripBraces, Fallback);
    }
  }

  /** On a path without braces the two rules give the same name. */
  lemma RulesAgreeWithoutBraces(path: string)
    requires '{' !in path && '}' !in path
    ensures SafeName(StripBraces, path) == SafeName(KeepBraces, path)
  {
    var stripped := Strip(path);
    StripKeepsCount(path, '{');
    StripKeepsCount(path, '}');
    assert '{' !in stripped && '}' !in stripped by {
      assert multiset(stripped)['{'] == 0 && multiset(stripped)['}'] == 0;
    }
    var joined := ReplaceAll(stripped, '/', '_');
    assert '{' !in joined && '}' !in joined;
  }

  /** A plain path segment: non-empty, with no slash and no brace. */
  predicate Segment(s: string) {
    s != [] && '/' !in s && '{' !in s && '}' !in s
  }

  /** The bare `/` and the empty path both become `root`. */
  lemma RootExample()
    ensures SafeName(StripBraces, "/") == "root" && SafeName(KeepBraces, "/") == "root"
    ensures SafeName(StripBraces, "") == "root" && SafeName(KeepBraces, "") == "root"
  {
  }

  /** `/{}` is where the two rules part: `root` against `{}`. */
  lemma BraceOnlyExample()
    ensures SafeName(StripBraces, "/{}") == "root" && SafeName(KeepBraces, "/{}") == "{}"
  {
    assert Strip("/{}") == "{}" by {
      StripOneLeadingSlash("{}");
    }
    assert ReplaceAll("{}", '/', '_') == "{}" by {
      ReplaceAllAbsent("{}", '/', '_');
    }
    assert Normalised(StripBraces, "/{}") == [] by {
      StripBracesFallbackExactlyForBraces("/{}");
    }
  }
}
