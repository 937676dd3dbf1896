/** Turning the model's raw reply into a decision: `extractJSON` and the regular expression
    `/\{[\s\S]*?\}/`, which both `match` (first occurrence) and `replace` (all occurrences) use.
    JSON.parse itself is a parameter: `parse(t)` is the value, or None where JSON.parse throws. */
module ResponseParser {
  import opened Wrappers
  import opened Text
  import opened JsonValues

  /** The first index at or after `from` that holds `c`. */
  function IndexFrom(s: string, c: char, from: nat): (r: Option<nat>)
    requires from <= |s|
    ensures r.Some? ==> from <= r.value < |s| && s[r.value] == c
                        && forall k :: from <= k < r.value ==> s[k] != c
    ensures r.None? <==> forall k :: from <= k < |s| ==> s[k] != c
    decreases |s| - from
  {
    if from == |s| then None
    else if s[from] == c then Some(from)
    else IndexFrom(s, c, from + 1)
  }

  /** No `{` in `s` has a `}` anywhere after it, so the regular expression matches nowhere. */
  ghost predicate NoBracePair(s: string)
  {
    forall i, j :: 0 <= i < j < |s| && s[i] == '{' ==> s[j] != '}'
  }

  /** `s.replace(/\{[\s\S]*?\}/g, '')`: from left to right, delete each `{` together with
      everything up to the nearest `}` after it; a `{` with no `}` after it stays. */
  function StripBraces(s: string): (r: string)
    ensures |r| <= |s|
    ensures forall c :: c in r ==> c in s
    decreases |s|
  {
    if s == [] then []
    else if s[0] != '{' then [s[0]] + StripBraces(s[1..])
    else match IndexFrom(s, '}', 1)
      case None => s
      case Some(j) => StripBraces(s[j + 1..])
  }

  /** After stripping, no `{` is followed by a `}`. */
  lemma {:induction false} StripLeavesNoPair(s: string)
    ensures NoBracePair(StripBraces(s))
    decreases |s|
  {
    if s == [] {
    } else if s[0] != '{' {
      StripLeavesNoPair(s[1..]);
      var t := StripBraces(s[1..]);
      assert StripBraces(s) == [s[0]] + t;
      forall i, j | 0 <= i < j < |[s[0]] + t| && ([s[0]] + t)[i] == '{'
        ensures ([s[0]] + t)[j] != '}'
      {
        assert i > 0;
        assert ([s[0]] + t)[i] == t[i - 1] && ([s[0]] + t)[j] == t[j - 1];
      }
    } else {
      match IndexFrom(s, '}', 1)
      case None =>
      case Some(j) => StripLeavesNoPair(s[j + 1..]);
    }
  }

  /** Text with no `{`-then-`}` pair is left exactly as it is. */
  lemma {:induction false} StripKeepsPairFree(s: string)
    requires NoBracePair(s)
    ensures StripBraces(s) == s
    decreases |s|
  {
    if s != [] {
      if s[0] != '{' {
        assert NoBracePair(s[1..]) by {
          forall i, j | 0 <= i < j < |s[1..]| && s[1..][i] == '{' ensures s[1..][j] != '}' {
            assert s[i + 1] == '{';
          }
        }
        StripKeepsPairFree(s[1..]);
        assert s == [s[0]] + s[1..];
      } else {
        assert IndexFrom(s, '}', 1).None?;
      }
    }
  }

  /** Stripping twice is stripping once. */
  lemma {:induction false} StripIdempotent(s: string)
    ensures StripBraces(StripBraces(s)) == StripBraces(s)
  {
    StripLeavesNoPair(s);
    StripKeepsPairFree(StripBraces(s));
  }

  /** Text without any `{` is unchanged by stripping. */
  lemma {:induction false} StripWithoutOpenBrace(s: string)
    requires '{' !in s
    ensures StripBraces(s) == s
  {
    assert NoBracePair(s) by {
      forall i | 0 <= i < |s| ensures s[i] != '{' {
        assert s[i] in s;
      }
    }
    StripKeepsPairFree(s);
  }

  /** Each lazy span is deleted on its own: the text before the first `{` stays, the span up to
      the nearest `}` goes, and stripping carries on after it. */
  lemma {:induction false} StripSpan(before: string, inner: string, after: string)
    requires '{' !in before && '}' !in inner
    ensures StripBraces(before + "{" + inner + "}" + after) == before + StripBraces(after)
    decreases |before|
  {
    var s := before + "{" + inner + "}" + after;
    if before == [] {
      var j := |inner| + 1;
      assert s[0] == '{' && s[j] == '}';
      forall k | 1 <= k < j ensures s[k] != '}' {
        assert s[k] == inner[k - 1];
      }
      assert IndexFrom(s, '}', 1) == Some(j);
      assert s[j + 1..] == after;
    } else {
      assert s[0] == before[0] && before[0] in before;
      assert s[1..] == before[1..] + "{" + inner + "}" + after;
      StripSpan(before[1..], inner, after);
      assert before == [before[0]] + before[1..];
    }
  }

  /** A nested object loses only its first lazy span: the text after the inner `}`, and the
      outer object's own `}`, stay. */
  lemma {:induction false} StripNestedObject()
    ensures StripBraces("{a{b}c}") == "c}"
  {
    assert '}' !in "a{b";
    StripSpan("", "a{b", "c}");
    assert "" + "{" + "a{b" + "}" + "c}" == "{a{b}c}";
    StripWithoutOpenBrace("c}");
  }

  /** `s[i..j+1]` is what `s.match(/\{[\s\S]*?\}/)` finds: `i` is the first `{` of `s` and
      `j` the nearest `}` after it. */
  ghost predicate SpanAt(s: string, i: int, j: int)
  {
    && 0 <= i < j < |s|
    && s[i] == '{' && s[j] == '}'
    && (forall k :: 0 <= k < i ==> s[k] != '{')
    && (forall k :: i < k < j ==> s[k] != '}')
  }

  /** The first match of the non-greedy brace pattern, if there is one. */
  function FirstSpan(s: string): (r: Option<string>)
    ensures r.None? <==> NoBracePair(s)
    ensures r.Some? ==> exists i, j :: SpanAt(s, i, j) && r.value == s[i..j + 1]
  {
    match IndexFrom(s, '{', 0)
    case None => None
    case Some(i) =>
      match IndexFrom(s, '}', i + 1)
      case None =>
        assert NoBracePair(s) by {
          forall a, b | 0 <= a < b < |s| && s[a] == '{' ensures s[b] != '}' {
            assert a >= i;
          }
        }
        None
      case Some(j) =>
        assert SpanAt(s, i, j);
        Some(s[i..j + 1])
  }

  /** `extractJSON`: the strictly parsed trimmed reply when that parses; otherwise the parse of
      the first brace span, and null when there is no span or it does not parse. */
  function ExtractJson(text: string, parse: string -> Option<Json>): (r: Json)
    ensures parse(Trim(text)).Some? ==> r == parse(Trim(text)).value
    ensures parse(Trim(text)).None? && NoBracePair(text) ==> r == JNull
    ensures parse(Trim(text)).None? && !NoBracePair(text) ==>
              exists i, j :: SpanAt(text, i, j)
                && r == match parse(text[i..j + 1]) case Some(v) => v case None => JNull
  {
    match parse(Trim(text))
    case Some(v) => v
    case None =>
      match FirstSpan(text)
      case None => JNull
      case Some(span) =>
        match parse(span)
        case Some(v) => v
        case None => JNull
  }

  /** Whenever `SpanAt(s, i, j)` holds, the span found is `s[i..j+1]`. */
  lemma {:induction false} FirstSpanAt(s: string, i: int, j: int)
    requires SpanAt(s, i, j)
    ensures FirstSpan(s) == Some(s[i..j + 1])
  {
    assert IndexFrom(s, '{', 0) == Some(i);
    assert IndexFrom(s, '}', i + 1) == Some(j);
  }

  /** Where the pieces of `a + m + c` sit. */
  lemma {:induction false} ConcatParts(a: string, m: string, c: string)
    ensures forall k :: 0 <= k < |a| ==> (a + m + c)[k] == a[k]
    ensures forall t :: 0 <= t < |m| ==> (a + m + c)[|a| + t] == m[t]
    ensures (a + m + c)[|a|..|a| + |m|] == m
  {
  }

  /** An object wrapped in commentary: the span found is the object itself, provided the text
      before it has no `{` and the object has no `}` inside. */
  lemma {:induction false} SpanOfWrappedObject(before: string, inner: string, after: string)
    requires '{' !in before && '}' !in inner
    ensures FirstSpan(before + "{" + inner + "}" + after) == Some("{" + inner + "}")
  {
    var m := "{" + inner + "}";
    var s := before + m + after;
    assert before + "{" + inner + "}" + after == s;
    var i, j := |before|, |before| + |m| - 1;
    assert SpanAt(s, i, j) by {
      ConcatParts(before, m, after);
      assert s[i] == m[0] == '{' && s[j] == m[|m| - 1] == '}';
      forall k | 0 <= k < i ensures s[k] != '{' {
        assert s[k] == before[k] && before[k] in before;
      }
      forall k | i < k < j ensures s[k] != '}' {
        assert s[k] == m[k - i] == inner[k - i - 1] && inner[k - i - 1] in inner;
      }
    }
    FirstSpanAt(s, i, j);
    ConcatParts(before, m, after);
  }

  /** The pattern stops at the first `}`: an object holding another object, such as a tool call
      whose `args` is an object, is cut after the inner object, one `}` short of the whole. */
  lemma {:induction false} NestedObjectIsCut(before: string, outer: string, inner: string, after: string)
    requires '{' !in before && '}' !in outer && '}' !in inner
    ensures FirstSpan(before + "{" + (outer + "{" + inner) + "}" + ("}" + after))
            == Some("{" + (outer + "{" + inner) + "}")
  {
    var body := outer + "{" + inner;
    assert '}' !in body by {
      assert forall c | c in body :: c in outer || c == '{' || c in inner;
    }
    SpanOfWrappedObject(before, body, "}" + after);
  }

  /** The reply `Sure! {"response":"ok"} thanks` yields exactly the object. */
  lemma {:induction false} SpanOfWrappedReply()
    ensures FirstSpan("Sure! " + "{" + "\"response\":\"ok\"" + "}" + " thanks")
            == Some("{" + "\"response\":\"ok\"" + "}")
  {
    var before, inner := "Sure! ", "\"response\":\"ok\"";
    assert '{' !in before by {
      forall k | 0 <= k < |before| ensures before[k] != '{' { }
    }
    assert '}' !in inner by {
      forall k | 0 <= k < |inner| ensures inner[k] != '}' { }
    }
    SpanOfWrappedObject(before, inner, " thanks");
  }
}
