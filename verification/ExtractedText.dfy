/**
 Bounded extraction of text: reading no more than a maximum, writing no more than a maximum,
 and cutting between characters.
 */
module ExtractedText {
  import opened Basics
  import opened Utf8

  const MAX_TEXT_BYTES := 3_145_728

  function Concat(blocks: seq<Bytes>): Bytes {
    if blocks == [] then [] else Concat(blocks[..|blocks| - 1]) + blocks[|blocks| - 1]
  }

  lemma {:induction false} ConcatPrefix(blocks: seq<Bytes>, i: nat)
    requires i <= |blocks|
    ensures Concat(blocks[..i]) <= Concat(blocks)
    decreases |blocks| - i
  {
    if i < |blocks| {
      assert blocks[..i + 1][..i] == blocks[..i];
      ConcatPrefix(blocks, i + 1);
    } else {
      assert blocks[..i] == blocks;
    }
  }

  /** Reads blocks until a maximum is reached. */
  method ReadStream(blocks: seq<Bytes>, maximum: nat) returns (s: Bytes)
    ensures s == Take(Concat(blocks), maximum)
  {
    s := [];
    var i := 0;
    while i < |blocks|
      invariant i <= |blocks| && s == Concat(blocks[..i]) && |s| <= maximum
    {
      var remaining := maximum - |s|;
      ConcatPrefix(blocks, i);
      assert blocks[..i + 1][..i] == blocks[..i];
      ConcatPrefix(blocks, i + 1);
      if remaining <= 0 { return; }
      if |blocks[i]| > remaining {
        return s + blocks[i][..remaining];
      }
      s := s + blocks[i];
      i := i + 1;
    }
    assert blocks[..i] == blocks;
  }

  /** Cuts an already compacted text to the limit. */
  function TrimText(compact: string): (r: (string, bool))
    ensures r.0 == Fit(compact, MAX_TEXT_BYTES)
    ensures r.1 <==> r.0 != compact
  {
    FitWhole(compact, MAX_TEXT_BYTES);
    var encoded := Encode(compact);
    if |encoded| <= MAX_TEXT_BYTES then (compact, false)
    else
      CutDecodes(compact, MAX_TEXT_BYTES);
      (DecodeIgnoring(encoded[..MAX_TEXT_BYTES]), true)
  }

  /** Text written piece by piece up to the limit. */
  class BoundedText {
    var text: string
    var bytes: nat
    var limited: bool
    /** Whether anything was written yet, and everything that was. */
    var started: bool
    ghost var written: string

    /** The text is what fits of everything written, and says whether that is less. */
    ghost predicate Valid()
      reads this
    {
      && text == Fit(written, MAX_TEXT_BYTES)
      && (limited <==> |Encode(written)| > MAX_TEXT_BYTES)
      && (if limited then bytes == MAX_TEXT_BYTES else bytes == |Encode(written)|)
    }

    constructor ()
      ensures Valid() && written == "" && !started
    {
      text, bytes, limited, started, written := "", 0, false, false, "";
    }

    method Write(value: string) returns (ok: bool)
      requires Valid()
      modifies this
      ensures Valid() && written == old(written) + value
      ensures ok <==> |Encode(value)| <= MAX_TEXT_BYTES - old(bytes)
      ensures !old(limited) ==> (ok <==> !limited)
    {
      var encoded := Encode(value);
      var remaining := MAX_TEXT_BYTES - bytes;
      ghost var before := written;
      EncodeConcat(written, value);
      if !limited {
        FitConcat(written, value, MAX_TEXT_BYTES);
        FitWhole(written, MAX_TEXT_BYTES);
        FitWhole(value, remaining);
      } else {
        FitStays(written, value, MAX_TEXT_BYTES);
      }
      written := written + value;
      started := true;
      if |encoded| <= remaining {
        text := text + value;
        bytes := bytes + |encoded|;
        if limited { EmptyEncoding(value); }
        return true;
      }
      if remaining > 0 {
        CutDecodes(value, remaining);
        text := text + DecodeIgnoring(encoded[..remaining]);
        bytes := MAX_TEXT_BYTES;
      }
      limited := true;
      return false;
    }

    /** A line break before every line but the first, then the line. */
    method Line(value: string) returns (ok: bool)
      requires Valid()
      modifies this
      ensures Valid()
      ensures ok ==> written == old(written) + (if old(started) then "\n" else "") + value
      ensures !ok ==> old(limited) || limited
    {
      if started {
        ok := Write("\n");
        if !ok { return; }
      } else {
        assert written == written + "";
      }
      ok := Write(value);
    }
  }

  lemma {:induction false} EmptyEncoding(value: string)
    ensures Encode(value) == [] ==> value == ""
  {
    if value != "" { assert |EncodeChar(value[0])| >= 1; }
  }
}
