/**
 * internal/agent/utils.go and its twin cmd/agent/utils.go: rendering a metric value
 * as text, and building the server's URL. fmt's "%f" is the parameter `formatF`.
 */
module AgentUtils {
  import opened Wrappers
  import opened Numbers
  import opened Common

  type Int32 = x: int | -0x8000_0000 <= x < 0x8000_0000
  type Uint32 = x: nat | x < 0x1_0000_0000
  type Uint64 = x: nat | x < Two64

  /** fmt.Sprintf("%f", x). */
  type FloatFormatter = Float64 -> string

  /**
   * A value of Go type `any` as the agent passes it: the types the switch names, and
   * the uint64 readings of runtime.MemStats, which reach the `default` case. A float32
   * is kept as the float64 of equal value.
   */
  datatype AnyValue =
    | IntV(i: Int64)
    | Int32V(i32: Int32)
    | Uint32V(u32: Uint32)
    | Float64V(f64: Float64)
    | Float32V(f32: Float64)
    | StringV(s: string)
    | Uint64V(u64: Uint64)

  /**
   * anyToString: integers in decimal (strconv.Itoa, FormatInt, FormatUint; "%v" on a
   * uint64 prints the same digits), floats with "%f", strings unchanged.
   */
  function AnyToString(v: AnyValue, formatF: FloatFormatter): string
  {
    match v
    case IntV(i) => IntToDecimal(i)
    case Int32V(i) => IntToDecimal(i)
    case Uint32V(u) => NatToDecimal(u)
    case Float64V(f) => formatF(f)
    case Float32V(f) => formatF(f)
    case StringV(s) => s
    case Uint64V(u) => NatToDecimal(u)
  }

  /** The signed renderings read back through strconv.ParseInt as the same number. */
  lemma AnyToStringSignedReadsBack(v: AnyValue, formatF: FloatFormatter)
    requires v.IntV? || v.Int32V?
    ensures ParseInt64(AnyToString(v, formatF)) == Some(if v.IntV? then v.i else v.i32)
  {
    ParseFormatRoundTrip(if v.IntV? then v.i else v.i32);
  }

  /** The unsigned renderings are plain decimal digits denoting the number. */
  lemma AnyToStringUnsignedReadsBack(v: AnyValue, formatF: FloatFormatter)
    requires v.Uint32V? || v.Uint64V?
    ensures var s := AnyToString(v, formatF);
      AllDigits(s) && DecimalValue(s) == (if v.Uint32V? then v.u32 else v.u64)
  {
    DecimalValueOfFormat(if v.Uint32V? then v.u32 else v.u64);
  }

  /** ensureEndpointProtocol: an endpoint without "://" gets "<protocol>://" in front. */
  function EnsureEndpointProtocol(endpoint: string, protocol: string): (r: string)
    ensures Contains(r, "://")
    ensures Contains(endpoint, "://") ==> r == endpoint
    ensures !Contains(endpoint, "://") ==> r == protocol + "://" + endpoint
  {
    if !Contains(endpoint, "://") then
      var r := protocol + "://" + endpoint;
      assert OccursAt(r, "://", |protocol|);
      r
    else endpoint
  }

  /** Once a scheme is present a second call changes nothing, whatever protocol it names. */
  lemma EnsureEndpointProtocolIdempotent(endpoint: string, p: string, q: string)
    ensures EnsureEndpointProtocol(EnsureEndpointProtocol(endpoint, p), q) == EnsureEndpointProtocol(endpoint, p)
  {
  }

  /** strings.Join(parts, sep). */
  function Join(parts: seq<string>, sep: string): string
  {
    if |parts| == 0 then ""
    else if |parts| == 1 then parts[0]
    else parts[0] + sep + Join(parts[1..], sep)
  }

  /** The first position of c in s. */
  function IndexOf(s: string, c: char): (r: Option<nat>)
    ensures r.None? <==> !ContainsChar(s, c)
    ensures r.Some? ==> r.value < |s| && s[r.value] == c && !ContainsChar(s[..r.value], c)
  {
    if s == [] then None
    else if s[0] == c then Some(0)
    else
      var r := IndexOf(s[1..], c);
      if r.None? then None else
        assert s[..r.value + 1] == [s[0]] + s[1..][..r.value];
        Some(r.value + 1)
  }

  /** strings.Split(s, sep) for a one-character separator: always at least one piece. */
  function Split(s: string, c: char): (r: seq<string>)
    ensures |r| > 0
    decreases |s|
  {
    var i := IndexOf(s, c);
    if i.None? then [s] else [s[..i.value]] + Split(s[i.value + 1..], c)
  }

  lemma IndexOfAfterPiece(p: string, c: char, rest: string)
    requires !ContainsChar(p, c)
    ensures IndexOf(p + [c] + rest, c) == Some(|p|)
  {
    var s := p + [c] + rest;
    assert s[|p|] == c;
    assert s[..|p|] == p;
  }

  /** Splitting a join on a separator no part contains gives the parts back. */
  lemma {:induction false} SplitJoinRoundTrip(parts: seq<string>, c: char)
    requires |parts| > 0
    requires forall k :: 0 <= k < |parts| ==> !ContainsChar(parts[k], c)
    ensures Split(Join(parts, [c]), c) == parts
    decreases |parts|
  {
    if |parts| == 1 {
      assert IndexOf(parts[0], c).None?;
    } else {
      var rest := Join(parts[1..], [c]);
      IndexOfAfterPiece(parts[0], c, rest);
      var s := parts[0] + [c] + rest;
      assert s[..|parts[0]|] == parts[0];
      assert s[|parts[0]| + 1..] == rest;
      SplitJoinRoundTrip(parts[1..], c);
      assert parts == [parts[0]] + parts[1..];
    }
  }

  /** buildURL: the endpoint, one '/', and the parts joined by '/'. */
  function BuildURL(endpoint: string, parts: seq<string>): (url: string)
    ensures HasSuffix(endpoint, "/") ==> url == endpoint + Join(parts, "/")
    ensures !HasSuffix(endpoint, "/") ==> url == endpoint + "/" + Join(parts, "/")
  {
    var base := if !HasSuffix(endpoint, "/") then endpoint + "/" else endpoint;
    base + Join(parts, "/")
  }

  /**
   * The URL extends the endpoint, and what follows the endpoint's '/' splits back into
   * the path parts (empty parts included) when no part contains a '/'.
   */
  lemma BuildURLPathParts(endpoint: string, parts: seq<string>)
    requires |parts| > 0
    requires forall k :: 0 <= k < |parts| ==> !ContainsChar(parts[k], '/')
    ensures var url := BuildURL(endpoint, parts);
      var base := if HasSuffix(endpoint, "/") then |endpoint| else |endpoint| + 1;
      && url[..|endpoint|] == endpoint
      && base <= |url| && url[base - 1] == '/'
      && Split(url[base..], '/') == parts
  {
    var url := BuildURL(endpoint, parts);
    var base := if HasSuffix(endpoint, "/") then |endpoint| else |endpoint| + 1;
    if HasSuffix(endpoint, "/") {
      assert endpoint[|endpoint| - 1..] == "/";
      assert endpoint[|endpoint| - 1] == '/';
    }
    assert url[base..] == Join(parts, "/");
    SplitJoinRoundTrip(parts, '/');
  }

  /** With no parts the URL is the endpoint with exactly one trailing '/'. */
  lemma BuildURLNoParts(endpoint: string)
    ensures HasSuffix(BuildURL(endpoint, []), "/")
    ensures HasSuffix(endpoint, "/") <==> BuildURL(endpoint, []) == endpoint
  {
    var url := BuildURL(endpoint, []);
    if !HasSuffix(endpoint, "/") {
      assert url[|url| - 1..] == "/";
      assert url != endpoint;
    }
  }
}
