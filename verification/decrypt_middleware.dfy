/**
 * internal/server/decrypt_middleware.go: a request marked X-Encrypted: true carries a
 * 256-byte RSA-OAEP block holding an AES key, followed by the AES-encrypted payload.
 * The two decryptions are parameters: `rsa` is rsa.DecryptOAEP under the server's
 * private key (None when no key is configured), `aes` is common.DecryptAES. A server
 * request always has a body, so an absent body reads as empty.
 */
module DecryptMiddleware {
  import opened Wrappers
  import opened Errors
  import opened Common
  import opened HttpWire

  /** keySize: the RSA-2048 block that carries the AES key. */
  const KeySize: nat := 256

  type RsaDecrypt = seq<Byte> -> Result<seq<Byte>, Error>
  type AesDecrypt = (seq<Byte>, seq<Byte>) -> Result<seq<Byte>, Error>

  /** What the middleware does with a request: hand one on, or refuse with a 400 text. */
  datatype Outcome = Pass(req: Request) | Reject(text: string)

  /** The body as io.ReadAll returns it. */
  function ReadBody(r: Request): Result<seq<Byte>, Error> {
    if r.body.None? then Success([]) else r.body.value
  }

  /** The middleware's decision for one request. */
  function Decrypt(r: Request, rsa: Option<RsaDecrypt>, aes: AesDecrypt): (o: Outcome)
    ensures rsa.None? || Get(r.header, XEncrypted) != "true" ==> o == Pass(r)
    ensures o.Reject? ==> rsa.Some? && Get(r.header, XEncrypted) == "true"
    ensures o.Reject? && ReadBody(r).Success? && |ReadBody(r).value| < KeySize ==> o.text == "Invalid encrypted data"
    ensures o.Pass? && rsa.Some? && Get(r.header, XEncrypted) == "true" && ReadBody(r).Success? && ReadBody(r).value != [] ==>
      && |ReadBody(r).value| >= KeySize
      && var data := ReadBody(r).value;
         var key := rsa.value(data[..KeySize]);
         key.Success? && aes(key.value, data[KeySize..]).Success?
         && o.req == r.(body := Some(Success(aes(key.value, data[KeySize..]).value)),
                        contentLength := |aes(key.value, data[KeySize..]).value|)
  {
    if rsa.None? || Get(r.header, XEncrypted) != "true" then Pass(r)
    else
      var read := ReadBody(r);
      if read.Failure? then Reject("Failed to read request body")
      else if |read.value| == 0 then Pass(r)
      else if |read.value| < KeySize then Reject("Invalid encrypted data")
      else
        var encryptedKey := read.value[..KeySize];
        var payload := read.value[KeySize..];
        var aesKey := rsa.value(encryptedKey);
        if aesKey.Failure? then Reject("Failed to decrypt AES key")
        else
          var plain := aes(aesKey.value, payload);
          if plain.Failure? then Reject("Failed to decrypt data")
          else Pass(r.(body := Some(Success(plain.value)), contentLength := |plain.value|))
  }

  /** The response: next's for a passed request, a 400 with the reason otherwise. */
  function DecryptW(w0: Wire, r: Request, next: Handler, rsa: Option<RsaDecrypt>, aes: AesDecrypt): Wire {
    match Decrypt(r, rsa, aes)
    case Pass(req) => Run(w0, next(req))
    case Reject(text) => HttpErrorW(w0, text, StatusBadRequest)
  }

  /** DecryptMiddleware(privateKey)(next).ServeHTTP(w, r). */
  method DecryptHandler(w: ResponseWriter, r: Request, next: Handler, rsa: Option<RsaDecrypt>, aes: AesDecrypt)
    modifies w
    ensures w.State() == DecryptW(old(w.State()), r, next, rsa, aes)
  {
    var o := Decrypt(r, rsa, aes);
    match o {
      case Pass(req) => w.Serve(next(req));
      case Reject(text) => HttpError(w, text, StatusBadRequest);
    }
  }

  /**
   * Every refusal is a 400 and the handler never runs: the response is the same whatever
   * handler sits behind the middleware.
   */
  lemma RejectionIgnoresHandler(r: Request, next1: Handler, next2: Handler, rsa: Option<RsaDecrypt>, aes: AesDecrypt)
    requires Decrypt(r, rsa, aes).Reject?
    ensures DecryptW(Fresh, r, next1, rsa, aes) == DecryptW(Fresh, r, next2, rsa, aes)
    ensures DecryptW(Fresh, r, next1, rsa, aes).status == 400
  {
  }

  /**
   * Round trip: a body made of an RSA block and an AES payload that decrypt to `key` and
   * `plain` reaches the handler as `plain`, with ContentLength |plain|.
   */
  lemma DecryptRoundTrip(r: Request, rsa: RsaDecrypt, aes: AesDecrypt, block: seq<Byte>, payload: seq<Byte>, key: seq<Byte>, plain: seq<Byte>)
    requires Get(r.header, XEncrypted) == "true" && r.body == Some(Success(block + payload))
    requires |block| == KeySize && rsa(block) == Success(key) && aes(key, payload) == Success(plain)
    ensures Decrypt(r, Some(rsa), aes) == Pass(r.(body := Some(Success(plain)), contentLength := |plain|))
  {
    assert (block + payload)[..KeySize] == block;
    assert (block + payload)[KeySize..] == payload;
  }

  /** Which step failed decides the message; each is a 400. */
  lemma FailureMessages(r: Request, rsa: RsaDecrypt, aes: AesDecrypt)
    requires Get(r.header, XEncrypted) == "true" && ReadBody(r).Success? && |ReadBody(r).value| >= KeySize
    ensures var data := ReadBody(r).value;
      && (rsa(data[..KeySize]).Failure? ==> Decrypt(r, Some(rsa), aes) == Reject("Failed to decrypt AES key"))
      && (rsa(data[..KeySize]).Success? && aes(rsa(data[..KeySize]).value, data[KeySize..]).Failure? ==>
            Decrypt(r, Some(rsa), aes) == Reject("Failed to decrypt data"))
  {
  }

  /** An encrypted request with an empty body goes on; an unreadable one is refused. */
  lemma EmptyOrUnreadableBody(r: Request, rsa: RsaDecrypt, aes: AesDecrypt)
    requires Get(r.header, XEncrypted) == "true"
    ensures ReadBody(r) == Success([]) ==> Decrypt(r, Some(rsa), aes) == Pass(r)
    ensures ReadBody(r).Failure? ==> Decrypt(r, Some(rsa), aes) == Reject("Failed to read request body")
  {
  }
}
