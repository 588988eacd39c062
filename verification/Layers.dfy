/**
 The Base64 layer loop of an import (internal/importparse/batch.go ParseBounded), over what it asks of
 each text: whether it is a native document, whether it holds a link, what it decodes to.
 */
module Layers {
  import opened Prelude

  const MAX_BASE64_LAYERS := 2

  const BASE64 := "base64"

  datatype BatchError =
    | InvalidLimits | InvalidFormat | InputTooLarge | EmptyInput | NativeConfig | InvalidUTF8 | TooManyLayers
    | InvalidBase64 | DecodedTooLarge | TooManyEntries

  /** The questions, and the text left after a byte order mark. */
  datatype Probe = Probe(
    native: string -> bool,
    link: string -> bool,
    decode: string -> Option<string>,
    unmark: string -> string,
    inspect: string -> Option<BatchError>)

  datatype Peeled = Peeled(data: string, size: nat, layers: nat)

  /** A link ends the loop, except that the base64 format asks for a layer first. */
  predicate Stops(probe: Probe, format: string, data: string, layers: nat) {
    (format != BASE64 || layers > 0) && probe.link(data)
  }

  function Peel(probe: Probe, format: string, data: string, size: nat, layers: nat): Result<Peeled, BatchError>
    requires layers <= MAX_BASE64_LAYERS
    decreases MAX_BASE64_LAYERS - layers
  {
    if probe.native(data) then Err(NativeConfig)
    else if Stops(probe, format, data, layers) then Ok(Peeled(data, size, layers))
    else if layers == MAX_BASE64_LAYERS then Err(TooManyLayers)
    else
      var decoded := probe.decode(data);
      if decoded.None? then Err(InvalidBase64)
      else
        var next := probe.unmark(decoded.value);
        var issue := probe.inspect(next);
        if issue.Some? then Err(issue.value) else Peel(probe, format, next, |decoded.value|, layers + 1)
  }

  method PeelLayers(probe: Probe, format: string, start: string, startSize: nat) returns (r: Result<Peeled, BatchError>)
    ensures r == Peel(probe, format, start, startSize, 0)
  {
    var data, size: nat, layers: nat := start, startSize, 0;
    while true
      invariant layers <= MAX_BASE64_LAYERS
      invariant Peel(probe, format, data, size, layers) == Peel(probe, format, start, startSize, 0)
      decreases MAX_BASE64_LAYERS - layers
    {
      if probe.native(data) { return Err(NativeConfig); }
      if Stops(probe, format, data, layers) { return Ok(Peeled(data, size, layers)); }
      if layers == MAX_BASE64_LAYERS { return Err(TooManyLayers); }
      var decoded := probe.decode(data);
      if decoded.None? { return Err(InvalidBase64); }
      var next := probe.unmark(decoded.value);
      var issue := probe.inspect(next);
      if issue.Some? { return Err(issue.value); }
      data, size, layers := next, |decoded.value|, layers + 1;
    }
  }

  /** The text under so many layers. */
  function Unlayered(probe: Probe, data: string, layers: nat): Option<string>
    decreases layers
  {
    if layers == 0 then Some(data)
    else
      var decoded := probe.decode(data);
      if decoded.None? then None else Unlayered(probe, probe.unmark(decoded.value), layers - 1)
  }

  /** What comes out is what lies under the layers counted, holds a link, and is no native document. */
  lemma {:induction false} PeelSound(probe: Probe, format: string, data: string, size: nat, layers: nat)
    requires layers <= MAX_BASE64_LAYERS && Peel(probe, format, data, size, layers).Ok?
    ensures var p := Peel(probe, format, data, size, layers).value;
            && layers <= p.layers <= MAX_BASE64_LAYERS && Unlayered(probe, data, p.layers - layers) == Some(p.data)
            && (format == BASE64 ==> p.layers > 0) && probe.link(p.data) && !probe.native(p.data)
    decreases MAX_BASE64_LAYERS - layers
  {
    if !Stops(probe, format, data, layers) {
      var decoded := probe.decode(data).value;
      PeelSound(probe, format, probe.unmark(decoded), |decoded|, layers + 1);
    }
  }

  /** A layer over an acceptable text that itself shows no link. */
  ghost predicate Covers(probe: Probe, outer: string, inner: string) {
    && !probe.native(outer) && !probe.link(outer) && probe.decode(outer) == Some(inner)
    && probe.unmark(inner) == inner && probe.inspect(inner) == None
  }

  /** layers[0] is the list; each later text covers the one before. */
  ghost predicate Wrapping(probe: Probe, texts: seq<string>) {
    && |texts| > 0 && probe.link(texts[0]) && !probe.native(texts[0])
    && forall i :: 0 < i < |texts| ==> Covers(probe, texts[i], texts[i - 1])
  }

  /** The loop takes off every layer, up to the limit, and stops at the list. */
  lemma {:induction false} PeelWrapped(probe: Probe, format: string, texts: seq<string>, k: nat, size: nat, layers: nat)
    requires Wrapping(probe, texts) && k < |texts| && layers <= MAX_BASE64_LAYERS
    requires (format != BASE64 || layers > 0 || k > 0)
    ensures Peel(probe, format, texts[k], size, layers) ==
            if layers + k <= MAX_BASE64_LAYERS
                then Ok(Peeled(texts[0], if k == 0 then size else |texts[0]|, layers + k))
            else Err(TooManyLayers)
    decreases k
  {
    if k > 0 {
      assert Covers(probe, texts[k], texts[k - 1]);
      if layers < MAX_BASE64_LAYERS { PeelWrapped(probe, format, texts, k - 1, |texts[k - 1]|, layers + 1); }
    }
  }
}
