/**
 The codec server: its encode, decode and download pipelines around external storage, and the
 compression codec it is used with.
 */
module CodecServer {
  import opened Wrappers
  import opened Payloads

  function Ascii(s: string): Bytes {
    seq(|s|, i requires 0 <= i < |s| => (s[i] as int) % 256)
  }

  const ENCODING := "encoding"
  const MESSAGE_TYPE := "messageType"
  const JSON_PROTOBUF := Ascii("json/protobuf")
  const REFERENCE_MESSAGE_TYPE := Ascii("temporal.api.sdk.v1.ExternalStorageReference")
  const BINARY_GZIP := Ascii("binary/gzip")

  predicate IsReference(p: Payload) {
    && ENCODING in p.metadata && p.metadata[ENCODING] == JSON_PROTOBUF
    && MESSAGE_TYPE in p.metadata && p.metadata[MESSAGE_TYPE] == REFERENCE_MESSAGE_TYPE
  }

  /** Bytes read as text, one character for each. */
  function Text(bs: Bytes): string {
    seq(|bs|, i requires 0 <= i < |bs| => bs[i] as char)
  }

  lemma AsciiRoundTrip(s: string, bs: Bytes)
    requires forall c :: c in s ==> c as int < 128
    ensures Text(Ascii(s)) == s
    ensures Ascii(s) == bs <==> Text(bs) == s
  {
    assert forall i :: 0 <= i < |s| ==> s[i] in s;
    if Text(bs) == s {
      forall i | 0 <= i < |s| ensures Ascii(s)[i] == bs[i] {
        assert Text(bs)[i] == s[i];
      }
    }
  }

  /** A payload is a reference exactly when its metadata reads `json/protobuf` and the name of the
      reference message; nothing else about it matters. */
  lemma ReferencesExactly(p: Payload)
    ensures IsReference(p) <==>
      && "encoding" in p.metadata && Text(p.metadata["encoding"]) == "json/protobuf"
      && "messageType" in p.metadata
      && Text(p.metadata["messageType"]) == "temporal.api.sdk.v1.ExternalStorageReference"
  {
    if "encoding" in p.metadata {
      AsciiRoundTrip("json/protobuf", p.metadata["encoding"]);
    }
    if "messageType" in p.metadata {
      AsciiRoundTrip("temporal.api.sdk.v1.ExternalStorageReference", p.metadata["messageType"]);
    }
  }

  /** A payload codec works on a whole list, and may change its length. */
  datatype Codec = Codec(encode: seq<Payload> -> seq<Payload>, decode: seq<Payload> -> seq<Payload>)

  datatype Server = Server(
    prestorage: Option<Codec>,
    poststorage: Option<Codec>,
    store: Payload -> Payload,      // offload one payload if it is large
    retrieve: Payload -> Payload)   // resolve one payload if it is a reference

  function MapAll(f: Payload -> Payload, ps: seq<Payload>): (qs: seq<Payload>)
    ensures |qs| == |ps| && forall i :: 0 <= i < |ps| ==> qs[i] == f(ps[i])
  {
    seq(|ps|, i requires 0 <= i < |ps| => f(ps[i]))
  }

  function EncodeWith(codec: Option<Codec>, ps: seq<Payload>): seq<Payload> {
    if codec.None? then ps else codec.value.encode(ps)
  }

  function DecodeWith(codec: Option<Codec>, ps: seq<Payload>): seq<Payload> {
    if codec.None? then ps else codec.value.decode(ps)
  }

  /** The payloads that are no references, in order. */
  function Gather(ps: seq<Payload>): seq<Payload> {
    if ps == [] then []
    else
      var init, last := Gather(ps[..|ps| - 1]), ps[|ps| - 1];
      if IsReference(last) then init else init + [last]
  }

  /** Put `ds` in the places of the payloads that are no references, as far as they go. */
  function Scatter(ps: seq<Payload>, ds: seq<Payload>): seq<Payload> {
    seq(|ps|, j requires 0 <= j < |ps| =>
      var rank := |Gather(ps[..j])|;
      if !IsReference(ps[j]) && rank < |ds| then ds[rank] else ps[j])
  }

  function DecodeNonRefs(codec: Option<Codec>, ps: seq<Payload>): seq<Payload> {
    if codec.None? then ps else Scatter(ps, codec.value.decode(Gather(ps)))
  }

  function Encode(server: Server, ps: seq<Payload>): seq<Payload> {
    EncodeWith(server.poststorage, MapAll(server.store, EncodeWith(server.prestorage, ps)))
  }

  function Decode(server: Server, ps: seq<Payload>, preserveReferences: bool): seq<Payload> {
    var inner := DecodeWith(server.poststorage, ps);
    DecodeNonRefs(server.prestorage, if preserveReferences then inner else MapAll(server.retrieve, inner))
  }

  datatype HttpError = BadRequest

  function Download(server: Server, ps: seq<Payload>): Result<seq<Payload>, HttpError> {
    if exists i :: 0 <= i < |ps| && !IsReference(ps[i]) then Err(BadRequest)
    else Ok(DecodeNonRefs(server.prestorage, MapAll(server.retrieve, ps)))
  }

  // ----- The handlers -----

  /** What the first loop has found: the places and values of the payloads that are no references,
      the k-th place having k such payloads before it. */
  predicate Gathered(payloads: seq<Payload>, i: nat, indices: seq<nat>, gathered: seq<Payload>) {
    && i <= |payloads| && |indices| == |gathered| && gathered == Gather(payloads[..i])
    && (forall k :: 0 <= k < |indices| ==>
          indices[k] < i && !IsReference(payloads[indices[k]]) && |Gather(payloads[..indices[k]])| == k)
    && (forall j: nat :: j < i && !IsReference(payloads[j]) ==> j in indices)
  }

  /** Gather the payloads that are not references, decode them, and scatter the results back;
      `zip` stops at the shorter of places and results. */
  method DecodeNonReferences(codec: Option<Codec>, payloads: seq<Payload>) returns (result: seq<Payload>)
    ensures result == DecodeNonRefs(codec, payloads)
  {
    if codec.None? {
      return payloads;
    }
    var indices: seq<nat> := [];
    var gathered: seq<Payload> := [];
    for i := 0 to |payloads|
      invariant Gathered(payloads, i, indices, gathered)
    {
      GatheredNext(payloads, i, indices, gathered);
      if !IsReference(payloads[i]) {
        indices, gathered := indices + [i], gathered + [payloads[i]];
      }
    }
    assert payloads[..|payloads|] == payloads;
    var decoded := codec.value.decode(gathered);
    result := payloads;
    var pairs := if |indices| < |decoded| then |indices| else |decoded|;
    assert payloads == Scatter(payloads, decoded[..0]);
    for k := 0 to pairs
      invariant result == Scatter(payloads, decoded[..k])
    {
      ScatterNext(payloads, indices, gathered, decoded, k);
      result := result[indices[k] := decoded[k]];
    }
    ScatterEnough(payloads, decoded, pairs);
  }

  lemma GatheredNext(payloads: seq<Payload>, i: nat, indices: seq<nat>, gathered: seq<Payload>)
    requires Gathered(payloads, i, indices, gathered) && i < |payloads|
    ensures if IsReference(payloads[i]) then Gathered(payloads, i + 1, indices, gathered)
            else Gathered(payloads, i + 1, indices + [i], gathered + [payloads[i]])
  {
    assert payloads[..i + 1][..i] == payloads[..i];
  }

  /** Scattering one result more changes one place. */
  lemma ScatterNext(payloads: seq<Payload>, indices: seq<nat>, gathered: seq<Payload>, decoded: seq<Payload>, k: nat)
    requires Gathered(payloads, |payloads|, indices, gathered) && k < |indices| && k < |decoded|
    ensures Scatter(payloads, decoded[..k + 1]) == Scatter(payloads, decoded[..k])[indices[k] := decoded[k]]
  {
    var before, after := Scatter(payloads, decoded[..k]), Scatter(payloads, decoded[..k + 1]);
    forall j: nat | j < |payloads| ensures after[j] == if j == indices[k] then decoded[k] else before[j] {
      if !IsReference(payloads[j]) && |Gather(payloads[..j])| == k {
        var l :| 0 <= l < |indices| && indices[l] == j;
        assert l == k;
      }
    }
  }

  /** More results than places do not matter. */
  lemma ScatterEnough(payloads: seq<Payload>, decoded: seq<Payload>, pairs: nat)
    requires pairs <= |decoded| && (pairs == |decoded| || pairs == |Gather(payloads)|)
    ensures Scatter(payloads, decoded[..pairs]) == Scatter(payloads, decoded)
  {
    forall j: nat | j < |payloads|
      ensures Scatter(payloads, decoded[..pairs])[j] == Scatter(payloads, decoded)[j]
    {
      if !IsReference(payloads[j]) {
        GatherAt(payloads, j);
      }
    }
  }

  method EncodeHandler(server: Server, request: seq<Payload>) returns (response: seq<Payload>)
    ensures response == Encode(server, request)
  {
    var payloads := request;
    if server.prestorage.Some? {
      payloads := server.prestorage.value.encode(payloads);
    }
    payloads := MapAll(server.store, payloads);
    if server.poststorage.Some? {
      payloads := server.poststorage.value.encode(payloads);
    }
    return payloads;
  }

  method DecodeHandler(server: Server, request: seq<Payload>, preserveReferences: bool) returns (response: seq<Payload>)
    ensures response == Decode(server, request, preserveReferences)
  {
    var payloads := request;
    if server.poststorage.Some? {
      payloads := server.poststorage.value.decode(payloads);
    }
    if !preserveReferences {
      payloads := MapAll(server.retrieve, payloads);
    }
    response := DecodeNonReferences(server.prestorage, payloads);
  }

  method DownloadHandler(server: Server, request: seq<Payload>) returns (response: Result<seq<Payload>, HttpError>)
    ensures response == Download(server, request)
  {
    if exists i :: 0 <= i < |request| && !IsReference(request[i]) {
      return Err(BadRequest);
    }
    var decoded := DecodeNonReferences(server.prestorage, MapAll(server.retrieve, request));
    return Ok(decoded);
  }

  // ----- Gather and scatter -----

  ghost predicate NoReferences(ps: seq<Payload>) {
    forall i :: 0 <= i < |ps| ==> !IsReference(ps[i])
  }

  lemma {:induction false} GatherAll(ps: seq<Payload>)
    requires NoReferences(ps)
    ensures Gather(ps) == ps
  {
    if ps != [] {
      GatherAll(ps[..|ps| - 1]);
    }
  }

  lemma {:induction false} GatherAt(ps: seq<Payload>, j: nat)
    requires j < |ps| && !IsReference(ps[j])
    ensures |Gather(ps[..j])| < |Gather(ps)| && Gather(ps)[|Gather(ps[..j])|] == ps[j]
  {
    if j < |ps| - 1 {
      GatherAt(ps[..|ps| - 1], j);
      assert ps[..|ps| - 1][..j] == ps[..j];
    }
  }

  /** A list without references is overwritten from the front. */
  lemma ScatterAll(ps: seq<Payload>, ds: seq<Payload>)
    requires NoReferences(ps)
    ensures Scatter(ps, ds) == if |ds| <= |ps| then ds + ps[|ds|..] else ds[..|ps|]
  {
    forall j | 0 <= j < |ps| ensures Scatter(ps, ds)[j] == if j < |ds| then ds[j] else ps[j] {
      GatherAll(ps[..j]);
    }
  }

  function Each(f: Payload -> Payload, p: Payload): Payload {
    if IsReference(p) then p else f(p)
  }

  /** This codec, if there is one, decodes payload by payload with `f`. */
  ghost predicate DecodesEach(codec: Option<Codec>, f: Payload -> Payload) {
    if codec.None? then forall p :: f(p) == p
    else forall ps :: codec.value.decode(ps) == MapAll(f, ps)
  }

  /** For a codec that decodes payload by payload, gathering and scattering is a map. */
  lemma DecodeNonRefsIsMap(codec: Option<Codec>, f: Payload -> Payload, ps: seq<Payload>)
    requires DecodesEach(codec, f)
    ensures DecodeNonRefs(codec, ps) == MapAll(p => Each(f, p), ps)
  {
    forall j | 0 <= j < |ps| ensures DecodeNonRefs(codec, ps)[j] == Each(f, ps[j]) {
      if codec.Some? && !IsReference(ps[j]) {
        GatherAt(ps, j);
      }
    }
  }

  // ----- Round trips -----

  ghost predicate Inverse(codec: Codec) {
    forall ps :: codec.decode(codec.encode(ps)) == ps
  }

  /** External storage: large payloads that are no references are replaced by a reference that
      resolves to them; everything else passes through; nothing stored is itself a reference. */
  ghost predicate StorageSound(server: Server) {
    && (forall p :: server.store(p) == p || (!IsReference(p) && IsReference(server.store(p)) && server.retrieve(server.store(p)) == p))
    && (forall p :: !IsReference(p) ==> server.retrieve(p) == p)
    && (forall p :: IsReference(p) ==> !IsReference(server.retrieve(p)))
  }

  ghost predicate ServerSound(server: Server) {
    && StorageSound(server)
    && (server.prestorage.Some? ==>
          Inverse(server.prestorage.value) && forall ps :: NoReferences(server.prestorage.value.encode(ps)))
    && (server.poststorage.Some? ==> Inverse(server.poststorage.value))
  }

  /** What storage holds or passes through comes back, references apart. */
  lemma Restored(server: Server, ps: seq<Payload>)
    requires StorageSound(server)
    ensures var restored := MapAll(server.retrieve, MapAll(server.store, ps));
      && NoReferences(restored)
      && (restored == ps <==> NoReferences(ps))
  {
    var restored := MapAll(server.retrieve, MapAll(server.store, ps));
    forall i | 0 <= i < |ps| ensures !IsReference(restored[i]) && (!IsReference(ps[i]) ==> restored[i] == ps[i]) {
      assert server.store(ps[i]) == ps[i] || server.retrieve(server.store(ps[i])) == ps[i];
    }
    if NoReferences(ps) {
      assert restored == ps;
    }
  }

  /** Decoding what was encoded gives the payloads back, for any list: without a prestorage codec,
      if and only if none of them is a reference; with one, if and only if the codec kept the length
      of the list, because results are written into the places of what was decoded. */
  lemma RoundTrip(server: Server, ps: seq<Payload>)
    requires ServerSound(server)
    ensures Decode(server, Encode(server, ps), false) == ps <==>
      if server.prestorage.Some? then |server.prestorage.value.encode(ps)| == |ps| else NoReferences(ps)
  {
    var encoded := EncodeWith(server.prestorage, ps);
    assert DecodeWith(server.poststorage, Encode(server, ps)) == MapAll(server.store, encoded);
    Restored(server, encoded);
    if server.prestorage.Some? {
      GatherAll(encoded);
      ScatterAll(encoded, ps);
    }
  }

  /** For every list-level codec, whatever it answers: decoding with references preserved keeps every
      reference in its place and value and changes the length no more than plain decoding does; where
      there are no references, the two give the same. */
  lemma PreserveKeeps(server: Server, ps: seq<Payload>)
    requires StorageSound(server)
    ensures var inner := DecodeWith(server.poststorage, ps);
      var kept := Decode(server, ps, true);
      && |kept| == |inner| == |Decode(server, ps, false)|
      && (forall j :: 0 <= j < |inner| && IsReference(inner[j]) ==> kept[j] == inner[j])
      && (NoReferences(inner) ==> kept == Decode(server, ps, false))
  {
    var inner := DecodeWith(server.poststorage, ps);
    if NoReferences(inner) {
      assert MapAll(server.retrieve, inner) == inner;
    }
  }

  /** What encoding stores, with the outer layer taken off again: at each place the payload that the
      prestorage codec gave, or a reference that resolves to it, a reference exactly where the store
      takes that payload or it was one before; and nothing is left that the store would still take. */
  lemma EncodeOffloads(server: Server, ps: seq<Payload>)
    requires ServerSound(server)
    ensures var inner := DecodeWith(server.poststorage, Encode(server, ps));
      var given := if server.prestorage.Some? then server.prestorage.value.encode(ps) else ps;
      && |inner| == |given|
      && forall i :: 0 <= i < |given| ==>
           && server.store(inner[i]) == inner[i]
           && (IsReference(inner[i]) <==> IsReference(given[i]) || server.store(given[i]) != given[i])
           && (if server.store(given[i]) == given[i] then inner[i] == given[i] else server.retrieve(inner[i]) == given[i])
  {
    var given := EncodeWith(server.prestorage, ps);
    assert DecodeWith(server.poststorage, Encode(server, ps)) == MapAll(server.store, given);
    forall p ensures server.store(server.store(p)) == server.store(p) {
      assert server.store(p) == p || IsReference(server.store(p));
    }
  }

  /** The client's click on each preserved reference: download it and put the result in its place. */
  function DownloadInPlace(server: Server, ps: seq<Payload>): seq<Payload> {
    MapAll(p => if Download(server, [p]).Ok? then Download(server, [p]).value[0] else p, ps)
  }

  lemma DownloadOne(server: Server, f: Payload -> Payload, p: Payload)
    requires StorageSound(server) && DecodesEach(server.prestorage, f)
    ensures Download(server, [p]).Ok? <==> IsReference(p)
    ensures IsReference(p) ==> Download(server, [p]) == Ok([f(server.retrieve(p))])
  {
    if IsReference(p) {
      DecodeNonRefsIsMap(server.prestorage, f, [server.retrieve(p)]);
      assert MapAll(server.retrieve, [p]) == [server.retrieve(p)];
      assert MapAll(q => Each(f, q), [server.retrieve(p)]) == [f(server.retrieve(p))];
    } else {
      assert !IsReference([p][0]);
    }
  }

  /** Downloading a list: refused unless every payload is a reference, the empty list not refused;
      otherwise what each resolves to, decoded. */
  lemma DownloadExactly(server: Server, f: Payload -> Payload, ps: seq<Payload>)
    requires StorageSound(server) && DecodesEach(server.prestorage, f)
    ensures Download(server, ps).Ok? <==> forall i :: 0 <= i < |ps| ==> IsReference(ps[i])
    ensures Download(server, ps).Ok? ==>
      && |Download(server, ps).value| == |ps|
      && forall i :: 0 <= i < |ps| ==> Download(server, ps).value[i] == f(server.retrieve(ps[i]))
  {
    var retrieved := MapAll(server.retrieve, ps);
    DecodeNonRefsIsMap(server.prestorage, f, retrieved);
    if Download(server, ps).Ok? {
      forall i | 0 <= i < |ps| ensures MapAll(p => Each(f, p), retrieved)[i] == f(server.retrieve(ps[i])) {
        assert IsReference(ps[i]);
      }
    }
  }

  /** Preserving references and downloading them afterwards agrees with decoding at once, payload
      by payload, except where a payload that was no reference decodes to one: the client then
      resolves a reference that the one-shot decode would have left alone. */
  lemma PreserveThenDownload(server: Server, f: Payload -> Payload, ps: seq<Payload>, i: nat)
    requires StorageSound(server) && DecodesEach(server.prestorage, f)
    requires i < |DecodeWith(server.poststorage, ps)|
    ensures |DownloadInPlace(server, Decode(server, ps, true))| == |Decode(server, ps, false)| == |DecodeWith(server.poststorage, ps)|
    ensures var q := DecodeWith(server.poststorage, ps)[i];
      var late, atOnce := DownloadInPlace(server, Decode(server, ps, true))[i], Decode(server, ps, false)[i];
      && atOnce == f(if IsReference(q) then server.retrieve(q) else q)
      && late == if !IsReference(q) && IsReference(f(q)) then f(server.retrieve(f(q))) else atOnce
  {
    var inner := DecodeWith(server.poststorage, ps);
    DecodeNonRefsIsMap(server.prestorage, f, inner);
    DecodeNonRefsIsMap(server.prestorage, f, MapAll(server.retrieve, inner));
    DownloadOne(server, f, Decode(server, ps, true)[i]);
  }

  /** For what the server itself encoded from payloads that are no references, the two ways of
      decoding give the same list, the original one. */
  lemma PreserveThenDownloadEncoded(server: Server, f: Payload -> Payload, ps: seq<Payload>)
    requires ServerSound(server) && DecodesEach(server.prestorage, f) && NoReferences(ps)
    ensures DownloadInPlace(server, Decode(server, Encode(server, ps), true)) == ps
    ensures Decode(server, Encode(server, ps), false) == ps
  {
    var e := EncodeWith(server.prestorage, ps);
    assert MapAll(f, e) == ps;
    RoundTrip(server, ps);
    var encoded := Encode(server, ps);
    assert DecodeWith(server.poststorage, encoded) == MapAll(server.store, e);
    forall i | 0 <= i < |ps| ensures DownloadInPlace(server, Decode(server, encoded, true))[i] == ps[i] {
      PreserveThenDownload(server, f, encoded, i);
      assert f(e[i]) == MapAll(f, e)[i] == ps[i];
    }
    if ps == [] {
      assert |Decode(server, encoded, true)| == 0;
    } else {
      PreserveThenDownload(server, f, encoded, 0);
    }
  }

  // ----- The compression codec -----

  /** Serialization and gzip, as far as the codec relies on them. */
  datatype Library = Library(
    serialize: Payload -> Bytes, parse: Bytes -> Payload,
    compress: Bytes -> Bytes, decompress: Bytes -> Bytes)

  ghost predicate LibrarySound(lib: Library) {
    && (forall p :: lib.parse(lib.serialize(p)) == p)
    && (forall b :: lib.decompress(lib.compress(b)) == b)
  }

  function Compressed(lib: Library, p: Payload): Payload {
    Payload(map[ENCODING := BINARY_GZIP], lib.compress(lib.serialize(p)))
  }

  function Decompressed(lib: Library, p: Payload): Payload {
    if ENCODING in p.metadata && p.metadata[ENCODING] == BINARY_GZIP then lib.parse(lib.decompress(p.data)) else p
  }

  function CompressionCodec(lib: Library): Codec {
    Codec(ps => MapAll(p => Compressed(lib, p), ps), ps => MapAll(p => Decompressed(lib, p), ps))
  }

  method DecompressAll(lib: Library, payloads: seq<Payload>) returns (result: seq<Payload>)
    ensures result == CompressionCodec(lib).decode(payloads)
  {
    result := [];
    for i := 0 to |payloads|
      invariant |result| == i && forall j :: 0 <= j < i ==> result[j] == Decompressed(lib, payloads[j])
    {
      var p := payloads[i];
      if ENCODING in p.metadata && p.metadata[ENCODING] == BINARY_GZIP {
        result := result + [lib.parse(lib.decompress(p.data))];
      } else {
        result := result + [p];
      }
    }
  }

  /** The compression codec is what the server asks of a prestorage codec, and it works payload by
      payload. */
  lemma CompressionFits(lib: Library, ps: seq<Payload>)
    requires LibrarySound(lib)
    ensures var codec := CompressionCodec(lib);
      && codec.decode(codec.encode(ps)) == ps
      && |codec.encode(ps)| == |ps|
      && NoReferences(codec.encode(ps))
      && codec.decode(ps) == MapAll(p => Decompressed(lib, p), ps)
  {
    assert BINARY_GZIP[0] == 0x62 && JSON_PROTOBUF[0] == 0x6A;
    var codec := CompressionCodec(lib);
    forall i | 0 <= i < |ps| ensures codec.decode(codec.encode(ps))[i] == ps[i] {
      assert codec.encode(ps)[i] == Compressed(lib, ps[i]);
    }
  }

  /** What compression makes of a payload: no metadata but the encoding, and data that decompress to
      its serialized bytes. A payload without that encoding passes through decoding unchanged. */
  lemma CompressedForm(lib: Library, p: Payload)
    requires LibrarySound(lib)
    ensures var c := CompressionCodec(lib).encode([p]);
      && |c| == 1 && c[0].metadata.Keys == {"encoding"} && Text(c[0].metadata["encoding"]) == "binary/gzip"
      && lib.decompress(c[0].data) == lib.serialize(p)
    ensures ("encoding" !in p.metadata || Text(p.metadata["encoding"]) != "binary/gzip") ==>
      CompressionCodec(lib).decode([p]) == [p]
  {
    AsciiRoundTrip("binary/gzip", BINARY_GZIP);
    if "encoding" in p.metadata {
      AsciiRoundTrip("binary/gzip", p.metadata["encoding"]);
    }
  }

  /** With it, every payload list survives encode and decode, references included. */
  lemma CompressedRoundTrip(lib: Library, server: Server, ps: seq<Payload>)
    requires LibrarySound(lib) && StorageSound(server)
    requires server.prestorage == Some(CompressionCodec(lib))
    requires server.poststorage.Some? ==> Inverse(server.poststorage.value)
    ensures Decode(server, Encode(server, ps), false) == ps
  {
    forall qs ensures CompressionCodec(lib).decode(CompressionCodec(lib).encode(qs)) == qs
                      && NoReferences(CompressionCodec(lib).encode(qs))
    {
      CompressionFits(lib, qs);
    }
    CompressionFits(lib, ps);
    RoundTrip(server, ps);
  }

  // ----- Where the round trips fail -----

  const REFERENCE :=
    Payload(map[ENCODING := JSON_PROTOBUF, MESSAGE_TYPE := REFERENCE_MESSAGE_TYPE], [])
  const PLAIN := Payload(map[], [])

  /** Nothing is large enough to be stored, and every reference resolves to one plain payload. */
  function SmallStore(prestorage: Option<Codec>): Server {
    Server(prestorage, None, p => p, p => if IsReference(p) then PLAIN else p)
  }

  /** A compressed reference, with the compression codec: decoded at once it is the reference; with
      references preserved and downloaded it is what the reference stands for. */
  lemma LateDiffers(lib: Library)
    requires LibrarySound(lib)
    ensures var server, ps := SmallStore(Some(CompressionCodec(lib))), [Compressed(lib, REFERENCE)];
      && StorageSound(server) && DecodesEach(server.prestorage, p => Decompressed(lib, p))
      && Decode(server, ps, false) == [REFERENCE]
      && DownloadInPlace(server, Decode(server, ps, true)) == [PLAIN]
  {
    var server, ps := SmallStore(Some(CompressionCodec(lib))), [Compressed(lib, REFERENCE)];
    CompressionFits(lib, [REFERENCE]);
    assert CompressionCodec(lib).encode([REFERENCE])[0] == Compressed(lib, REFERENCE);
    assert Decompressed(lib, Compressed(lib, REFERENCE)) == REFERENCE;
    PreserveThenDownload(server, p => Decompressed(lib, p), ps, 0);
  }

  /** Hides every reference behind one more byte of its encoding, and puts a header in front. */
  function Hide(p: Payload): Payload {
    if ENCODING in p.metadata then p.(metadata := p.metadata[ENCODING := [0] + p.metadata[ENCODING]]) else p
  }

  function Show(p: Payload): Payload {
    if ENCODING in p.metadata && p.metadata[ENCODING] != []
    then p.(metadata := p.metadata[ENCODING := p.metadata[ENCODING][1..]]) else p
  }

  const HEADED := Codec(ps => [PLAIN] + MapAll(Hide, ps), ps => if ps == [] then [] else MapAll(Show, ps[1..]))

  lemma HeadedSound(ps: seq<Payload>)
    ensures HEADED.decode(HEADED.encode(ps)) == ps && NoReferences(HEADED.encode(ps))
  {
    assert ([PLAIN] + MapAll(Hide, ps))[1..] == MapAll(Hide, ps);
    forall p ensures Show(Hide(p)) == p && !IsReference(Hide(p)) {
      if ENCODING in p.metadata {
        assert ([0] + p.metadata[ENCODING])[1..] == p.metadata[ENCODING];
        assert p.metadata[ENCODING := [0] + p.metadata[ENCODING]][ENCODING := p.metadata[ENCODING]] == p.metadata;
        assert JSON_PROTOBUF[0] == 0x6A;
      }
    }
  }

  /** A codec that undoes itself and puts a header in front of the list: no list at all survives. */
  lemma LengthMatters(ps: seq<Payload>)
    ensures ServerSound(SmallStore(Some(HEADED)))
    ensures Decode(SmallStore(Some(HEADED)), Encode(SmallStore(Some(HEADED)), ps), false) != ps
  {
    forall qs ensures HEADED.decode(HEADED.encode(qs)) == qs && NoReferences(HEADED.encode(qs)) {
      HeadedSound(qs);
    }
    RoundTrip(SmallStore(Some(HEADED)), ps);
  }
}
