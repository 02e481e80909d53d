/** Clean-up of language-model output (`llm.py`): removing a markdown code
    fence around a JSON answer, and keeping the usable entries of a list of
    alternative place names. The model calls themselves are not modelled. */
module Llm {
  import opened Common
  import opened Text

  const FENCE: string := "```"

  predicate FenceAt(s: string, i: nat)
  {
    i + 3 <= |s| && s[i] == '`' && s[i + 1] == '`' && s[i + 2] == '`'
  }

  /** The first fence at or after `from`. */
  function FindFence(s: string, from: nat): (r: Option<nat>)
    ensures r.Some? ==> from <= r.value && FenceAt(s, r.value)
    ensures r.Some? ==> forall j :: from <= j < r.value ==> !FenceAt(s, j)
    ensures r.None? ==> forall j :: from <= j ==> !FenceAt(s, j)
    decreases |s| - from
  {
    if from + 3 > |s| then None
    else if FenceAt(s, from) then Some(from)
    else FindFence(s, from + 1)
  }

  /** The "json" tag at `i`. */
  predicate JsonTagAt(t: string, i: nat)
  {
    i + 4 <= |t| && t[i] == 'j' && t[i + 1] == 's' && t[i + 2] == 'o' && t[i + 3] == 'n'
  }

  /** The end of the whitespace run that starts at `k`. */
  function SkipSpace(t: string, k: nat): (r: nat)
    requires k <= |t|
    ensures k <= r <= |t|
    decreases |t| - k
  {
    if k < |t| && IsSpace(t[k]) then SkipSpace(t, k + 1) else k
  }

  /** `SkipSpace` passes over whitespace only and stops at the end or at
      the first character that is not whitespace. */
  lemma {:induction false} SkipSpaceSpans(t: string, k: nat)
    requires k <= |t|
    ensures var r := SkipSpace(t, k);
      && (forall i :: k <= i < r ==> IsSpace(t[i]))
      && (r == |t| || !IsSpace(t[r]))
    decreases |t| - k
  {
    if k < |t| && IsSpace(t[k]) {
      SkipSpaceSpans(t, k + 1);
    }
  }

  /** Where the fenced contents begin after the opening fence at `o`: past
      an optional "json" tag and the whitespace after it. */
  function ContentStart(t: string, o: nat): (q: nat)
    requires o + 3 <= |t|
    ensures o + 3 <= q <= |t|
  {
    SkipSpace(t, if JsonTagAt(t, o + 3) then o + 7 else o + 3)
  }

  /** Where the fenced contents lie: from past the opening fence to the
      closing one. */
  datatype Span = Span(start: nat, end: nat)

  /** The first fence, then the next fence at or after the start of its
      contents; None when either is missing. */
  function FencedSpan(t: string): (r: Option<Span>)
    ensures r.Some? ==> r.value.start <= r.value.end <= |t|
  {
    match FindFence(t, 0)
    case None => None
    case Some(o) =>
      var q := ContentStart(t, o);
      match FindFence(t, q)
      case None => None
      case Some(c) => Some(Span(q, c))
  }

  /** `_strip_markdown`: the input is stripped; when it holds a fence
      followed later by another, the result is the stripped text between
      the first fence (and its optional "json" tag) and the next fence;
      otherwise the stripped input. */
  function StripMarkdown(text: string): (r: string)
    ensures Trimmed(r)
  {
    var t := Strip(text);
    match FencedSpan(t)
    case None => t
    case Some(span) => Strip(t[span.start..span.end])
  }

  /** Without a pair of fences there is no fenced span. */
  lemma NoSpanUnfenced(t: string)
    requires forall i, j :: 0 <= i && i + 3 <= j ==> !(FenceAt(t, i) && FenceAt(t, j))
    ensures FencedSpan(t) == None
  {
    match FindFence(t, 0)
    case None =>
    case Some(o) =>
      var q := ContentStart(t, o);
      assert forall j :: q <= j ==> !FenceAt(t, j) by {
        assert FenceAt(t, o);
      }
  }

  /** Without a pair of fences the stripped input comes back. */
  lemma StripMarkdownUnfenced(text: string)
    requires forall i, j :: 0 <= i && i + 3 <= j ==> !(FenceAt(Strip(text), i) && FenceAt(Strip(text), j))
    ensures StripMarkdown(text) == Strip(text)
  {
    NoSpanUnfenced(Strip(text));
  }

  lemma FirstFenceAtZero(s: string)
    requires FenceAt(s, 0)
    ensures FindFence(s, 0) == Some(0)
  {
  }

  /** No fence starts inside `s[a..b]` when that stretch has no backtick. */
  lemma NoFenceWithoutBacktick(s: string, a: nat, b: nat)
    requires a <= b <= |s|
    requires forall k :: a <= k < b ==> s[k] != '`'
    ensures forall j :: a <= j < b ==> !FenceAt(s, j)
  {
    forall j | a <= j < b
      ensures !FenceAt(s, j)
    {
    }
  }

  /** The first fence from `a` is at `c` when none starts before it. */
  lemma FenceFoundAt(s: string, a: nat, c: nat)
    requires a <= c && FenceAt(s, c)
    requires forall k :: a <= k < c ==> s[k] != '`'
    ensures FindFence(s, a) == Some(c)
  {
    NoFenceWithoutBacktick(s, a, c);
  }

  /** How `StripMarkdown` reads a trimmed text whose first fence is at `o`
      and whose closing fence is at `c`. */
  lemma StripMarkdownPair(t: string, o: nat, c: nat)
    requires Trimmed(t) && FindFence(t, 0) == Some(o)
    requires ContentStart(t, o) <= c && FindFence(t, ContentStart(t, o)) == Some(c)
    ensures StripMarkdown(t) == Strip(t[ContentStart(t, o)..c])
  {
    assert FencedSpan(t) == Some(Span(ContentStart(t, o), c));
    StripTrimmed(t);
  }

  /** A trimmed block without backticks wrapped in a bare fence comes back
      unchanged, as long as it does not itself begin with "json". */
  lemma StripMarkdownBareFence(content: string)
    requires Trimmed(content) && '`' !in content
    requires !JsonTagAt(content, 0)
    ensures StripMarkdown(FENCE + content + FENCE) == content
  {
    var t := FENCE + content + FENCE;
    var c := 3 + |content|;
    assert t[..3] == FENCE && t[3..c] == content && t[c..] == FENCE;
    assert Trimmed(t);
    FirstFenceAtZero(t);
    assert ContentStart(t, 0) == 3 by {
      if content != [] {
        assert t[3] == content[0];
      }
    }
    assert forall k :: 3 <= k < c ==> t[k] != '`' by {
      forall k | 3 <= k < c ensures t[k] != '`' {
        assert t[k] == content[k - 3];
      }
    }
    assert FenceAt(t, c);
    FenceFoundAt(t, 3, c);
    StripMarkdownPair(t, 0, c);
    StripTrimmed(content);
  }

  /** A trimmed non-empty block followed by a newline strips back to the
      block. */
  lemma StripNewline(content: string)
    requires Trimmed(content) && content != []
    ensures Strip(content + "\n") == content
  {
    var r := content + "\n";
    assert r[0] == content[0] && !IsSpace(r[0]);
    assert TrimLeft(r) == r;
    assert r[..|r| - 1] == content && IsSpace(r[|r| - 1]);
    assert TrimRight(r) == TrimRight(content) == content;
  }

  lemma MiddleSlice<T>(a: seq<T>, b: seq<T>, c: seq<T>)
    ensures (a + b + c)[|a|..|a| + |b|] == b
  {
    assert forall i :: 0 <= i < |b| ==> (a + b + c)[|a|..|a| + |b|][i] == b[i];
  }

  /** Where the pieces of a json-tagged fenced block lie. */
  lemma JsonFenceLayout(content: string, t: string)
    requires Trimmed(content)
    requires t == FENCE + "json\n" + content + "\n" + FENCE
    ensures Trimmed(t) && FindFence(t, 0) == Some(0) && ContentStart(t, 0) == SkipSpace(t, 8)
    ensures t[8..9 + |content|] == content + "\n" && t[9 + |content|..] == FENCE
  {
    assert t == (FENCE + "json\n") + (content + "\n") + FENCE;
    MiddleSlice(FENCE + "json\n", content + "\n", FENCE);
    FirstFenceAtZero(t);
    assert JsonTagAt(t, 3) && t[7] == '\n';
  }

  /** The json-tagged block closes at its final fence, with no backtick
      before it. */
  lemma JsonFenceClosing(content: string, t: string)
    requires '`' !in content
    requires 9 + |content| <= |t|
    requires t[8..9 + |content|] == content + "\n" && t[9 + |content|..] == FENCE
    ensures forall k :: 8 <= k < 9 + |content| ==> t[k] != '`'
    ensures FenceAt(t, 9 + |content|)
  {
    var n := |content|;
    forall k | 8 <= k < 9 + n
      ensures t[k] != '`'
    {
      assert t[k] == (content + "\n")[k - 8];
      if k < 8 + n {
        assert t[k] == content[k - 8];
      }
    }
    assert t[9 + n..][0] == t[9 + n] && t[9 + n..][1] == t[10 + n] && t[9 + n..][2] == t[11 + n];
  }

  /** A trimmed block without backticks, fenced with a "json" tag and a
      newline on each side, comes back unchanged. */
  lemma StripMarkdownJsonFence(content: string)
    requires Trimmed(content) && '`' !in content
    ensures StripMarkdown(FENCE + "json\n" + content + "\n" + FENCE) == content
  {
    var t := FENCE + "json\n" + content + "\n" + FENCE;
    var c := 9 + |content|;
    JsonFenceLayout(content, t);
    JsonFenceClosing(content, t);
    if content == [] {
      assert SkipSpace(t, 8) == SkipSpace(t, 9) == c;
      FenceFoundAt(t, c, c);
      StripMarkdownPair(t, 0, c);
      StripTrimmed(content);
    } else {
      assert SkipSpace(t, 8) == 8 by {
        assert t[8] == content[0];
      }
      FenceFoundAt(t, 8, c);
      StripMarkdownPair(t, 0, c);
      StripNewline(content);
    }
  }

  // --------------------------------------------------------- name variants

  /** An element of the JSON array the model returned. */
  datatype JsonItem = Str(s: string) | NonString

  /** What generate_name_variants obtains inside its `try`: an exception
      raised there (the completion call failing, a JSON decode error), a
      reply without a bracketed array, or the decoded array. */
  datatype VariantsReply = VariantsFailed | NoArray | Array(items: seq<JsonItem>)

  /** The string entries of `items` that `keep` accepts, in order. */
  function KeepStrings(items: seq<JsonItem>, keep: string -> bool): (r: seq<string>)
    ensures |r| <= |items|
  {
    if items == [] then []
    else if items[0].Str? && keep(items[0].s) then [items[0].s] + KeepStrings(items[1..], keep)
    else KeepStrings(items[1..], keep)
  }

  /** Everything kept is a string entry of the input that `keep` accepts. */
  lemma {:induction false} KeepStringsKept(items: seq<JsonItem>, keep: string -> bool)
    ensures forall k :: 0 <= k < |KeepStrings(items, keep)| ==>
      keep(KeepStrings(items, keep)[k]) && Str(KeepStrings(items, keep)[k]) in items
  {
    if items != [] {
      KeepStringsKept(items[1..], keep);
      var rest := KeepStrings(items[1..], keep);
      var r := KeepStrings(items, keep);
      if items[0].Str? && keep(items[0].s) {
        assert r == [items[0].s] + rest;
        forall k | 0 <= k < |r|
          ensures keep(r[k]) && Str(r[k]) in items
        {
          if k == 0 {
            assert Str(r[0]) == items[0];
          } else {
            assert r[k] == rest[k - 1];
            assert Str(rest[k - 1]) in items[1..];
          }
        }
      } else {
        assert r == rest;
        assert forall v :: v in items[1..] ==> v in items;
      }
    }
  }

  /** Filtering a concatenation filters each part. */
  lemma {:induction false} KeepStringsAppend(a: seq<JsonItem>, b: seq<JsonItem>, keep: string -> bool)
    ensures KeepStrings(a + b, keep) == KeepStrings(a, keep) + KeepStrings(b, keep)
  {
    if a != [] {
      assert (a + b)[0] == a[0] && (a + b)[1..] == a[1..] + b;
      KeepStringsAppend(a[1..], b, keep);
    } else {
      assert a + b == b;
    }
  }

  /** Python's truth value of `v.strip()`. */
  predicate NonBlank(v: string)
  {
    Strip(v) != ""
  }

  /** `[v for v in variants if isinstance(v, str) and v.strip()]`. */
  function FilterVariants(items: seq<JsonItem>): (r: seq<string>)
    ensures |r| <= |items|
  {
    KeepStrings(items, NonBlank)
  }

  /** The filter keeps the order of the array: filtering a concatenation
      filters each part. */
  lemma FilterVariantsAppend(a: seq<JsonItem>, b: seq<JsonItem>)
    ensures FilterVariants(a + b) == FilterVariants(a) + FilterVariants(b)
  {
    KeepStringsAppend(a, b, NonBlank);
  }

  /** Every kept entry is one of the array's strings and has non-whitespace
      content. */
  lemma FilterVariantsUsable(items: seq<JsonItem>)
    ensures forall k :: 0 <= k < |FilterVariants(items)| ==>
      Strip(FilterVariants(items)[k]) != "" && Str(FilterVariants(items)[k]) in items
  {
    KeepStringsKept(items, NonBlank);
  }

  /** An entry is kept exactly when it is a string with non-whitespace
      content. */
  lemma FilterVariantsOne(item: JsonItem)
    ensures FilterVariants([item]) == (if item.Str? && Strip(item.s) != "" then [item.s] else [])
  {
    assert [item][0] == item && [item][1..] == [];
    assert KeepStrings([item], NonBlank) == (if item.Str? && NonBlank(item.s) then [item.s] else []) + KeepStrings([], NonBlank);
  }

  /** The variants generate_name_variants returns: [] on a failure inside
      its `try` or a reply without an array. */
  function NameVariants(reply: VariantsReply): (r: seq<string>)
    ensures reply.VariantsFailed? || reply.NoArray? ==> r == []
    ensures reply.Array? ==> r == FilterVariants(reply.items)
  {
    match reply
    case Array(items) => FilterVariants(items)
    case _ => []
  }
}
