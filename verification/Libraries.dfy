/** The library code the system calls: JSON text, SHA-256, HMAC, UTF-8, timestamp text and the Markdown
    report. Each is a function value; what a lemma needs of them is the predicate `Lawful` or an explicit
    absence of hash collisions among named values. Blank lines and line ends are those of Python's bytes. */
module Libraries {
  import opened Wrappers
  import opened JsonValues

  newtype Byte = b: int | 0 <= b < 256
  type Bytes = seq<Byte>

  const LF: Byte := 10
  const CR: Byte := 13

  /** What `json.loads` does with bytes. */
  datatype Loaded = Value(json: Json) | Malformed | Undecodable

  /** Microseconds. */
  const SECOND: int := 1_000_000

  /** A moment in integer microseconds, or a datetime whose offset is not UTC. */
  datatype Instant = Utc(micros: int) | NotUtc

  predicate HexDigit(c: char) {
    '0' <= c <= '9' || 'a' <= c <= 'f'
  }

  /** The pattern of sixty-four lower-case hexadecimal digits. */
  predicate HexDigest(s: string) {
    |s| == 64 && forall i | 0 <= i < |s| :: HexDigit(s[i])
  }

  /** No line feed and no carriage return, the only line ends of `bytes.splitlines`. */
  predicate OneLine(b: Bytes) {
    forall i | 0 <= i < |b| :: b[i] != LF && b[i] != CR
  }

  /** The length of the first line, its end included. */
  function FirstLine(b: Bytes): (n: nat)
    ensures n <= |b| && (b != [] ==> n > 0)
  {
    if b == [] then 0
    else if b[0] == LF then 1
    else if b[0] == CR then (if |b| > 1 && b[1] == LF then 2 else 1)
    else 1 + FirstLine(b[1..])
  }

  /** `bytes.splitlines(keepends=True)`. */
  function SplitBytes(b: Bytes): seq<Bytes> {
    if b == [] then [] else [b[..FirstLine(b)]] + SplitBytes(b[FirstLine(b)..])
  }

  /** Nothing but ASCII white space: what `bytes.strip` strips to nothing. */
  predicate Blank(b: Bytes) {
    forall i | 0 <= i < |b| :: b[i] == 32 || 9 <= b[i] <= 13
  }

  /** The laws below speak of a value only where a proof cites it. */
  predicate Cite<T>(x: T) {
    true
  }

  datatype Library = Library(
    encode: Json -> Bytes,               // json.dumps, sorted compact keys, as UTF-8
    encodeAscii: Json -> string,         // json.dumps with the default ASCII escapes
    pretty: Json -> Bytes,               // json.dumps with indent=2 and sorted keys
    loads: Bytes -> Loaded,              // json.loads on bytes
    loadsText: string -> Option<Json>,   // json.loads on text
    utf8: string -> Bytes,
    text: Bytes -> Option<string>,
    sha256: Bytes -> string,
    hmac: (Bytes, string) -> string,
    identifier: string -> Option<string>, // event-type normalisation of the historical import
    formatUtc: int -> string,
    parseUtc: string -> Result<int, string>,
    seconds: int -> Json,                // timedelta.total_seconds() of microseconds
    report: (Json, seq<Json>) -> Option<Bytes> // the Markdown report, or an exception on unsortable codes
  ) {

    /** Canonical JSON decodes back, is never blank, and stays on one line; ASCII text is injective. */
    ghost predicate CodecLaws() {
      && (forall j {:trigger Cite(j)} | Finite(j) ::
            && loads(encode(j)) == Value(j)
            && loads(encode(j) + [LF]) == Value(j)
            && loads(pretty(j) + [LF]) == Value(j)
            && text(encode(j)).Some? && loadsText(text(encode(j)).value) == Some(j)
            && !Blank(encode(j)) && OneLine(encode(j)))
      && (forall j, k {:trigger Cite(j), Cite(k)} | Finite(j) && Finite(k) ::
          encodeAscii(j) == encodeAscii(k) ==> j == k)
    }

    ghost predicate TextLaws() {
      forall s {:trigger Cite(s)} :: text(utf8(s)) == Some(s)
    }

    ghost predicate TimeLaws() {
      forall t {:trigger Cite(t)} :: parseUtc(formatUtc(t)) == Ok(t) && Finite(seconds(t))
    }

    ghost predicate DigestLaws() {
      forall b {:trigger Cite(b)} :: HexDigest(sha256(b))
    }

    /** Codes that are all strings can be counted and sorted. */
    ghost predicate ReportLaws() {
      forall run: Json, codes: seq<Json> {:trigger Cite(run), Cite(codes)} | (forall c | c in codes :: c.Str?) ::
        report(run, codes).Some?
    }

    ghost predicate Lawful() {
      CodecLaws() && TextLaws() && TimeLaws() && DigestLaws() && ReportLaws()
    }

    lemma DecodesBack(j: Json)
      requires Lawful() && Finite(j)
      ensures loads(encode(j)) == loads(encode(j) + [LF]) == loads(pretty(j) + [LF]) == Value(j)
      ensures text(encode(j)).Some? && loadsText(text(encode(j)).value) == Some(j)
      ensures !Blank(encode(j)) && OneLine(encode(j))
    {
      assert Cite(j);
    }

    /** Canonical JSON determines the value. */
    lemma EncodeInjective(j: Json, k: Json)
      requires Lawful() && Finite(j) && Finite(k)
      requires encode(j) == encode(k)
      ensures j == k
    {
      DecodesBack(j);
      DecodesBack(k);
    }

    lemma AsciiInjective(j: Json, k: Json)
      requires Lawful() && Finite(j) && Finite(k)
      requires encodeAscii(j) == encodeAscii(k)
      ensures j == k
    {
      assert Cite(j) && Cite(k);
    }

    lemma TextRoundTrip(s: string)
      requires Lawful()
      ensures text(utf8(s)) == Some(s)
    {
      assert Cite(s);
    }

    lemma TimeRoundTrip(t: int)
      requires Lawful()
      ensures parseUtc(formatUtc(t)) == Ok(t) && Finite(seconds(t))
    {
      assert Cite(t);
    }

    lemma DigestShape(b: Bytes)
      requires Lawful()
      ensures HexDigest(sha256(b))
    {
      assert Cite(b);
    }

    lemma ReportWrites(run: Json, codes: seq<Json>)
      requires Lawful() && forall c | c in codes :: c.Str?
      ensures report(run, codes).Some?
    {
      assert Cite(run) && Cite(codes);
    }

    /** `_json_bytes`: canonical JSON and a final line feed. */
    function JsonLine(j: Json): Bytes {
      encode(j) + [LF]
    }

    /** SHA-256 of text. */
    function Sha256Text(s: string): string {
      sha256(utf8(s))
    }
  }

  /** No two of these byte strings share a SHA-256 digest. */
  ghost predicate NoCollision(lib: Library, contents: iset<Bytes>) {
    forall a, b | a in contents && b in contents && lib.sha256(a) == lib.sha256(b) :: a == b
  }
}
