/**
 * Cleaning a model reply before it is parsed as JSON (app/services/parsing.py,
 * and its verbatim copy in app.py): trim, and when the reply opens with a
 * Markdown fence, drop the fence line and at most one closing fence.
 */
module Parsing {
  import opened Strings

  const Fence: string := "```"

  /** The text after the first line, or all of it when there is no line break. */
  function AfterFirstLine(s: string): (r: string)
    ensures |r| <= |s| && s[|s| - |r|..] == r
    ensures '\n' in s ==>
      var k := |s| - |r|;
      0 < k && s == s[..k] + r && s[k - 1] == '\n' && '\n' !in s[..k - 1]
    ensures '\n' !in s ==> r == s
  {
    var i := FindChar(s, '\n');
    if i != -1 then s[i + 1..] else s
  }

  /** The text without one closing fence, if it ends with one. */
  function DropClosingFence(s: string): (r: string)
    ensures r <= s
    ensures EndsWith(s, Fence) ==> r + Fence == s
    ensures !EndsWith(s, Fence) ==> r == s
  {
    if EndsWith(s, Fence) then s[..|s| - 3] else s
  }

  /** `extract_json_from_llm`. */
  function ExtractJson(raw: string): string {
    var s := Strip(raw);
    if StartsWith(s, Fence) then Strip(DropClosingFence(AfterFirstLine(s))) else s
  }

  /**
   * The cleaned text is trimmed and no longer than the reply; a reply that does not
   * open with a fence is only trimmed.
   */
  lemma ExtractJsonTrimmed(raw: string)
    ensures Stripped(ExtractJson(raw))
    ensures |ExtractJson(raw)| <= |raw|
    ensures !StartsWith(Strip(raw), Fence) ==> ExtractJson(raw) == Strip(raw)
  {
    var s := Strip(raw);
    StripShape(raw);
    if StartsWith(s, Fence) {
      StripShape(DropClosingFence(AfterFirstLine(s)));
    }
  }

  /** `extract_json_from_llm` as the source writes it: one local, reassigned step by step. */
  method ExtractJsonFromLlm(raw: string) returns (s: string)
    ensures s == ExtractJson(raw)
  {
    s := Strip(raw);
    if StartsWith(s, Fence) {
      var firstNewline := FindChar(s, '\n');
      if firstNewline != -1 {
        s := s[firstNewline + 1..];
      }
      if EndsWith(s, Fence) {
        s := s[..|s| - 3];
      }
      s := Strip(s);
    }
  }

  /** A piece of a piece is a piece. */
  lemma PieceOfPiece(a: string, b: string, c: string, i: nat, k: nat)
    requires i + |b| <= |a| && a[i..i + |b|] == b
    requires k + |c| <= |b| && b[k..k + |c|] == c
    ensures i + k + |c| <= |a| && a[i + k..i + k + |c|] == c
  {
    assert forall n :: 0 <= n < |c| ==> a[i + k + n] == b[k + n] == c[n];
  }

  /** The trimmed text is a piece of its input. */
  lemma StripIsPiece(s: string) returns (i: nat)
    ensures i + |Strip(s)| <= |s| && s[i..i + |Strip(s)|] == Strip(s)
  {
    StripFacts(s);
    i := |s| - |LStrip(s)|;
  }

  /** A prefix of a suffix is a piece. */
  lemma PrefixOfSuffix(s: string, u: string, t: string)
    requires |u| <= |s| && s[|s| - |u|..] == u && t <= u
    ensures var k := |s| - |u|; k + |t| <= |s| && s[k..k + |t|] == t
  {
    var k := |s| - |u|;
    assert s[k..k + |t|] == s[k..][..|t|];
  }

  /** The trimmed prefix of a suffix is a piece. */
  lemma TrimmedPrefixOfSuffix(s: string, u: string, t: string) returns (j: nat)
    requires |u| <= |s| && s[|s| - |u|..] == u && t <= u
    ensures j + |Strip(t)| <= |s| && s[j..j + |Strip(t)|] == Strip(t)
  {
    var k := |s| - |u|;
    PrefixOfSuffix(s, u, t);
    var m := StripIsPiece(t);
    PieceOfPiece(s, t, Strip(t), k, m);
    j := k + m;
  }

  /** What the fenced branch keeps is a piece of the trimmed reply. */
  lemma FencedIsPiece(s: string) returns (j: nat)
    ensures var r := Strip(DropClosingFence(AfterFirstLine(s)));
      j + |r| <= |s| && s[j..j + |r|] == r
  {
    var u := AfterFirstLine(s);
    j := TrimmedPrefixOfSuffix(s, u, DropClosingFence(u));
  }

  /** A piece of the trimmed reply is a piece of the reply. */
  lemma PieceOfTrimmed(raw: string, r: string, m: nat) returns (j: nat)
    requires m + |r| <= |Strip(raw)| && Strip(raw)[m..m + |r|] == r
    ensures j + |r| <= |raw| && raw[j..j + |r|] == r
  {
    var i := StripIsPiece(raw);
    PieceOfPiece(raw, Strip(raw), r, i, m);
    j := i + m;
  }

  /** The cleaned text is one contiguous piece of the reply. */
  lemma ExtractJsonIsPiece(raw: string) returns (j: nat)
    ensures j + |ExtractJson(raw)| <= |raw| && raw[j..j + |ExtractJson(raw)|] == ExtractJson(raw)
  {
    var s := Strip(raw);
    if StartsWith(s, Fence) {
      var m := FencedIsPiece(s);
      j := PieceOfTrimmed(raw, Strip(DropClosingFence(AfterFirstLine(s))), m);
    } else {
      j := StripIsPiece(raw);
    }
  }

  /**
   * Once the reply opens with a fence and has a line break, the fence line never
   * contributes: the result is a piece of the text after the first line break.
   */
  lemma FenceLineDropped(raw: string) returns (j: nat)
    requires StartsWith(Strip(raw), Fence) && '\n' in Strip(raw)
    ensures var rest := AfterFirstLine(Strip(raw));
      j + |ExtractJson(raw)| <= |rest| && rest[j..j + |ExtractJson(raw)|] == ExtractJson(raw)
  {
    var u := AfterFirstLine(Strip(raw));
    var t := DropClosingFence(u);
    var r := Strip(t);
    assert ExtractJson(raw) == r;
    StripRun(t);
    j := |t| - |LStrip(t)|;
    assert u[j..j + |r|] == t[j..j + |r|] by {
      assert u[..|t|] == t;
    }
  }

  /** The fenced branch of a trimmed reply whose first line break is at `k`. */
  lemma FencedAt(raw: string, k: nat)
    requires Stripped(raw) && StartsWith(raw, Fence)
    requires k < |raw| && raw[k] == '\n' && '\n' !in raw[..k]
    ensures ExtractJson(raw) == Strip(DropClosingFence(raw[k + 1..]))
  {
    StripOfStripped(raw);
    FindCharAt(raw, '\n', k);
  }

  /** A trimmed text followed by a line break trims back to itself. */
  lemma StripLineBreak(body: string)
    requires Stripped(body)
    ensures Strip(body + "\n") == body
  {
    var t := body + "\n";
    assert t[..|t| - 1] == body;
    if body != [] {
      assert LStrip(t) == t;
      assert LStrip(body) == body;
      assert RStrip(t) == RStrip(body);
    } else {
      assert LStrip(t) == LStrip(t[1..]);
    }
  }

  /**
   * A fenced block with an info string on its opening line gives back the trimmed
   * body: the opening line and the closing fence are both dropped.
   */
  lemma FencedBlock(info: string, body: string)
    requires '\n' !in info && Stripped(body)
    ensures ExtractJson(Fence + info + "\n" + body + "\n" + Fence) == body
  {
    var raw := Fence + info + "\n" + body + "\n" + Fence;
    var k := |Fence + info|;
    var u := body + "\n" + Fence;
    assert raw == (Fence + info) + "\n" + u;
    assert raw[..k] == Fence + info && raw[k] == '\n' && raw[k + 1..] == u;
    assert Stripped(raw) && StartsWith(raw, Fence) by {
      assert raw[..3] == Fence;
      assert raw[|raw| - 1] == '`';
    }
    FencedAt(raw, k);
    assert DropClosingFence(u) == body + "\n" by {
      assert u[|u| - 3..] == Fence;
      assert u[..|u| - 3] == body + "\n";
    }
    StripLineBreak(body);
  }

  /** A `json` fence around an object. */
  lemma FencedJsonExample()
    ensures ExtractJson("```json\n{\"a\":1}\n```") == "{\"a\":1}"
  {
    var body := "{\"a\":1}";
    assert "```json\n{\"a\":1}\n```" == Fence + "json" + "\n" + body + "\n" + Fence by {
      assert Fence == "```";
    }
    FencedBlock("json", body);
  }

  /** An opening fence line with no closing fence: only the opening line is dropped. */
  lemma FencedOpenOnly(info: string, rest: string)
    requires '\n' !in info && Stripped(rest) && rest != [] && rest[|rest| - 1] != '`'
    ensures ExtractJson(Fence + info + "\n" + rest) == rest
  {
    var raw := Fence + info + "\n" + rest;
    var k := |Fence + info|;
    assert raw == (Fence + info) + "\n" + rest;
    assert raw[..k] == Fence + info && raw[k] == '\n' && raw[k + 1..] == rest;
    assert Stripped(raw) && StartsWith(raw, Fence) by {
      assert raw[..3] == Fence;
      assert raw[|raw| - 1] == rest[|rest| - 1];
    }
    FencedAt(raw, k);
    StripOfStripped(rest);
  }

  /** Only one closing fence is removed; a second one stays in the result. */
  lemma OneClosingFenceOnly()
    ensures ExtractJson("```\n{}\n```\n```") == "{}\n```"
  {
    var body := "{}\n```";
    assert "```\n{}\n```\n```" == Fence + "" + "\n" + body + "\n" + Fence by {
      assert Fence == "```";
    }
    FencedBlock("", body);
  }

  /** A reply opening with two fence lines loses only the first of them. */
  lemma DoubleOpeningOnePass()
    ensures ExtractJson("```\n```\n{}") == "```\n{}"
  {
    var once := "```\n{}";
    assert "```\n```\n{}" == Fence + "" + "\n" + once by {
      assert Fence == "```";
    }
    FencedOpenOnly("", once);
  }

  lemma SingleOpeningOnePass()
    ensures ExtractJson("```\n{}") == "{}"
  {
    assert "```\n{}" == Fence + "" + "\n" + "{}" by {
      assert Fence == "```";
    }
    FencedOpenOnly("", "{}");
  }

  /**
   * Cleaning is not idempotent: a reply holding two opening fences loses one per pass,
   * so a second pass changes the result again.
   */
  lemma NotIdempotent()
    ensures ExtractJson(ExtractJson("```\n```\n{}")) != ExtractJson("```\n```\n{}")
  {
    DoubleOpeningOnePass();
    SingleOpeningOnePass();
    assert "{}" != "```\n{}" by { assert |"{}"| == 2; }
  }
}
