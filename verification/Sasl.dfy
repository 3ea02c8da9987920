/** SASL PLAIN (RFC 4616, section 2) in chunks of 400 characters of base64, which is an oracle. */
module Sasl {
  import opened Common
  import opened Text

  const SASL_CHUNK: nat := 400

  /** The payload in pieces of 400, a multiple of 400 closed by "+". */
  function SaslChunks(payload: string): seq<string> {
    if |payload| < SASL_CHUNK then (if payload == [] then ["+"] else [payload])
    else [payload[..SASL_CHUNK]] + SaslChunks(payload[SASL_CHUNK..])
  }

  /** `sasl_plain_lines`, after the base64 encoding. */
  method SaslLines(payload: string) returns (lines: seq<string>)
    ensures |lines| == |SaslChunks(payload)|
    ensures forall i | 0 <= i < |lines| :: lines[i] == "AUTHENTICATE " + SaslChunks(payload)[i]
  {
    lines := [];
    var i := 0;
    ghost var done: seq<string> := [];
    while i < |payload|
      invariant i <= |payload| ==> done + SaslChunks(payload[i..]) == SaslChunks(payload)
      invariant i > |payload| ==> done == SaslChunks(payload) && |payload| % SASL_CHUNK != 0
      invariant i % SASL_CHUNK == 0
      invariant |lines| == |done| && forall k | 0 <= k < |lines| :: lines[k] == "AUTHENTICATE " + done[k]
    {
      var end := if i + SASL_CHUNK < |payload| then i + SASL_CHUNK else |payload|;
      var chunk := payload[i..end];
      SaslNext(payload, i);
      assert payload[i..|payload|] == payload[i..];
      assert i + SASL_CHUNK <= |payload| ==>
          done + ([chunk] + SaslChunks(payload[i + SASL_CHUNK..])) == SaslChunks(payload);
      lines := lines + ["AUTHENTICATE " + chunk];
      done := done + [chunk];
      i := i + SASL_CHUNK;
    }
    if |payload| % SASL_CHUNK == 0 {
      assert i == |payload| && payload[i..] == [];
      lines := lines + ["AUTHENTICATE +"];
      done := done + ["+"];
      assert "AUTHENTICATE " + "+" == "AUTHENTICATE +";
    }
  }

  lemma SaslNext(payload: string, i: nat)
    requires i < |payload| && i % SASL_CHUNK == 0
    ensures i + SASL_CHUNK <= |payload| ==>
              SaslChunks(payload[i..]) == [payload[i..i + SASL_CHUNK]] + SaslChunks(payload[i + SASL_CHUNK..])
    ensures i + SASL_CHUNK > |payload| ==> SaslChunks(payload[i..]) == [payload[i..]] && |payload| % SASL_CHUNK != 0
  {
    var rest := payload[i..];
    if i + SASL_CHUNK <= |payload| {
      assert rest[..SASL_CHUNK] == payload[i..i + SASL_CHUNK] && rest[SASL_CHUNK..] == payload[i + SASL_CHUNK..];
    }
  }

  /** A server joins chunks until one is shorter than 400 or is "+"; what is left is not read. */
  function Joined(chunks: seq<string>): Option<(string, seq<string>)> {
    if chunks == [] then None
    else if chunks[0] == "+" then Some(("", chunks[1..]))
    else if |chunks[0]| < SASL_CHUNK then Some((chunks[0], chunks[1..]))
    else
      var rest := Joined(chunks[1..]);
      if rest.None? then None else Some((chunks[0] + rest.value.0, rest.value.1))
  }

  /**
   The server recovers the payload, reading every line, exactly when its last piece is not a lone
   "+"; base64 output, whose length is a multiple of four, never ends that way.
   */
  lemma {:induction false} SaslRoundTripIff(payload: string)
    ensures Joined(SaslChunks(payload)) == Some((payload, [])) <==>
        !(|payload| % SASL_CHUNK == 1 && payload[|payload| - 1] == '+')
    ensures |payload| % 4 == 0 ==> Joined(SaslChunks(payload)) == Some((payload, []))
    decreases |payload|
  {
    hide Joined;
    if |payload| < SASL_CHUNK {
      SaslLast(payload);
    } else {
      var first, rest := payload[..SASL_CHUNK], payload[SASL_CHUNK..];
      SaslRoundTripIff(rest);
      SaslMore(payload);
      JoinedCons(first, SaslChunks(rest), rest);
      hide SaslChunks;
      Halves(payload, SASL_CHUNK);
    }
  }

  lemma SaslMore(payload: string)
    requires |payload| >= SASL_CHUNK
    ensures var rest := payload[SASL_CHUNK..];
            && SaslChunks(payload) == [payload[..SASL_CHUNK]] + SaslChunks(rest)
            && |rest| % SASL_CHUNK == |payload| % SASL_CHUNK && |rest| % 4 == |payload| % 4
            && (rest != [] ==> rest[|rest| - 1] == payload[|payload| - 1])
  {
  }

  lemma SaslLast(payload: string)
    requires |payload| < SASL_CHUNK
    ensures Joined(SaslChunks(payload)) == Some((payload, [])) <==> !(|payload| == 1 && payload[0] == '+')
  {
    assert SaslChunks(payload)[1..] == [];
    assert |payload| == 1 ==> payload == [payload[0]];
  }

  lemma JoinedCons(first: string, more: seq<string>, rest: string)
    requires |first| == SASL_CHUNK
    ensures Joined([first] + more) == Some((first + rest, [])) <==> Joined(more) == Some((rest, []))
  {
    assert ([first] + more)[1..] == more;
    if Joined(more).Some? {
      var r := Joined(more).value.0;
      assert first + r == first + rest ==> (first + r)[SASL_CHUNK..] == r && (first + rest)[SASL_CHUNK..] == rest;
    }
  }
}
