/** Cleaning of the language model's reply before it is decoded as JSON
    (`gerar_protocolo_ia` and `regenerar_protocolo_ia` run the same steps). */
module Sanitizer {
  import opened Text

  const JsonFence := "```json"
  const Fence := "```"

  /** Strip surrounding white space, a leading "```json" and then a leading
      "```" (either, both or neither), a trailing "```", and white space again. */
  function Sanitize(raw: string): (r: string)
    ensures NoOuterSpace(r)
    ensures |r| <= |raw|
  {
    Trim(Unfence(Trim(raw)))
  }

  /** The three fence steps between the two trims. */
  function Unfence(t0: string): (r: string)
    ensures |r| <= |t0|
  {
    var t1 := if StartsWith(t0, JsonFence) then t0[|JsonFence|..] else t0;
    var t2 := if StartsWith(t1, Fence) then t1[|Fence|..] else t1;
    if EndsWith(t2, Fence) then t2[..|t2| - |Fence|] else t2
  }

  /** A reply fenced as "```json", a line break, the body, a line break and
      "```" sanitises to exactly the body, when the body has no white space
      at its ends. */
  lemma JsonFencedReply(body: string)
    requires NoOuterSpace(body)
    ensures Sanitize(JsonFence + "\n" + body + "\n" + Fence) == body
  {
    var raw := JsonFence + "\n" + body + "\n" + Fence;
    assert raw[0] == '`' && raw[|raw| - 1] == '`';
    assert Trim(raw) == raw;
    assert raw == JsonFence + ("\n" + body + "\n" + Fence);
    assert raw[..7] == JsonFence;
    var t1 := raw[7..];
    assert t1 == "\n" + body + "\n" + Fence;
    assert t1[0] == '\n';
    assert t1[|t1| - 3..] == Fence;
    var t3 := t1[..|t1| - 3];
    assert t3 == "\n" + body + "\n";
    assert Unfence(raw) == t3;
    TrimSurrounded("\n", body, "\n");
  }

  /** The same with an untagged "```" fence. */
  lemma PlainFencedReply(body: string)
    requires NoOuterSpace(body)
    ensures Sanitize(Fence + "\n" + body + "\n" + Fence) == body
  {
    var raw := Fence + "\n" + body + "\n" + Fence;
    assert raw[0] == '`' && raw[|raw| - 1] == '`';
    assert Trim(raw) == raw;
    assert raw[3] == '\n';
    assert !StartsWith(raw, JsonFence);
    assert raw[..3] == Fence;
    var t2 := raw[3..];
    assert t2 == "\n" + body + "\n" + Fence;
    assert t2[|t2| - 3..] == Fence;
    var t3 := t2[..|t2| - 3];
    assert t3 == "\n" + body + "\n";
    assert Unfence(raw) == t3;
    TrimSurrounded("\n", body, "\n");
  }

  /** A reply that, once trimmed, neither starts nor ends with "```" is only
      trimmed. */
  lemma UnfencedReply(raw: string)
    requires !StartsWith(Trim(raw), Fence) && !EndsWith(Trim(raw), Fence)
    ensures Sanitize(raw) == Trim(raw)
  {
    var t0 := Trim(raw);
    assert !StartsWith(t0, JsonFence) by {
      if |JsonFence| <= |t0| {
        assert t0[..|JsonFence|][..3] == t0[..3];
      }
    }
    assert Unfence(t0) == t0;
    TrimIdempotent(raw);
  }

  /** The tag is matched exactly: an upper-case "```JSON" fence loses only
      its backticks, so the tag stays in front of the body. */
  lemma UpperCaseTagKept(body: string)
    requires body != [] && NoOuterSpace(body)
    ensures Sanitize(Fence + "JSON\n" + body + "\n" + Fence) == "JSON\n" + body
  {
    var raw := Fence + "JSON\n" + body + "\n" + Fence;
    assert raw[0] == '`' && raw[|raw| - 1] == '`';
    assert Trim(raw) == raw;
    assert raw[3] == 'J';
    assert !StartsWith(raw, JsonFence);
    assert raw[..3] == Fence;
    var t2 := raw[3..];
    assert t2 == "JSON\n" + body + "\n" + Fence;
    assert t2[|t2| - 3..] == Fence;
    var t3 := t2[..|t2| - 3];
    assert t3 == "JSON\n" + body + "\n";
    assert Unfence(raw) == t3;
    assert t3 == [] + ("JSON\n" + body) + "\n";
    assert NoOuterSpace("JSON\n" + body) by {
      var s := "JSON\n" + body;
      assert s[0] == 'J';
      assert s[|s| - 1] == body[|body| - 1];
    }
    TrimSurrounded([], "JSON\n" + body, "\n");
  }
}
