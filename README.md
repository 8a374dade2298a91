# Secure transport and message layer of lib3h, modelled in Dafny

This project models the core of three crates of the lib3h peer-to-peer stack
and proves properties of the model:

- **`libsodacon/src/transport.rs`** (module `Transport`, `transport.dfy`). This file has the
  poll-state flag (`PollEventState`) and the `TransportEvent` variants. It also has the test
  endpoint (`TestEndpoint`), whose text form is `addr:port`. The endpoint's parser
  (`New`, built on a model of `str::split` and `str::parse::<u16>`) and its renderer
  (`Get` / `Display`, built on decimal formatting) are pure functions. The test
  transport is a class: its connection table `endpoints` is a `map` field that
  `AssertConnection` updates in place. `ProcessOnce` sets the caller's
  `PollEventState.didSomething` field and returns the batch of events.
- **`libsodacrypt/src/sym.rs`** (module `Sym`, `sym.dfy`). This file covers key generation,
  `enc` and `dec`. The model keeps the order of their guards and their distinct error
  kinds. The box primitive is a parameter of type `Cipher`: a `seal`/`open` pair.
  Every lemma that needs cryptography assumes only `Authenticated`, which says three
  things: opening a sealed text gives the plaintext back; whatever opens was sealed
  under that nonce and key; and a sealed text does not open under another
  well-formed key. `SymbolicCipherIsAuthenticated` shows that these assumptions are
  consistent.
- **`libsodacon/src/net/message.rs`** (module `NetMessage`, `net_message.dfy`). This file has
  the millisecond conversion `GetMillis`, the protocol records and their constructors,
  and the encrypted envelope. The clock appears as a parameter. The MessagePack
  serialiser is a parameter of type `Codec`. Where a lemma needs it, the serialiser is
  assumed `Lossless`: whatever it encodes, it decodes back. `Compile` is a method
  that builds the carrier request one field at a time, as the source does. It is
  specified by the function `SealBatch`, which computes the body. `Parse` is the
  staged inverse of `Compile`.

Shared types are in module `Errors` (`errors.dfy`): byte strings, `u16` and `u64`,
`Option`, `Result` and the `Error` kinds.

Where the design description and the code disagree, the model follows the code:

- The transport contract in the code has `assert_connection`. It has neither
  `connect` nor `list_connections`.
- `TransportEvent` has only `OnError`.
- The `Message` enum in `net/message.rs` has the ping and user variants. It has no
  discovery or handshake variants.
- The design says that connecting again "must not reset" a connection's state. The
  code's `HashMap::insert` does overwrite the state with `0`. The model keeps that
  overwrite. Its invariant `TestTransport.Valid` says every state is `0`, so the reset
  cannot be observed (`AssertConnection` proves that no tracked state changes).
- The design says that rendering a parsed endpoint gives the input back "up to
  canonical form". `GetNewRoundTrip` states exactly when it does: the input has one
  colon, and its port text is canonical decimal that fits in 16 bits.
  `SignedPortIsNormalised` shows a case that does not round-trip: `+080` parses as
  port 80, but renders as `80`.
- The design reads a ping response's `response_time - origin_time` as a latency
  or skew figure. The code gives no order between the two stamps: each
  constructor reads `SystemTime::now()` on its own host, and that clock is not
  monotonic. `PingResEchoesRequestTime` therefore states only the echo and the
  signed difference between the two readings; the response is not earlier than
  the request only if the responder's reading is not earlier than the requester's.

## Model

| member | source | states |
|---|---|---|
| `Transport.PollEventState.constructor` | libsodacon/src/transport.rs:15-19 | a fresh poll state has `didSomething` false |
| `Transport.Split` | libsodacon/src/transport.rs:59 | `split(':')` gives one more part than there are separators; no part contains the separator; joining the parts with it gives the input back |
| `Transport.SplitAtOnlySeparator` | libsodacon/src/transport.rs:59-60 | a text with exactly one separator splits into exactly the text before it and the text after it |
| `Transport.ParseU16` | libsodacon/src/transport.rs:65 | `parse::<u16>` succeeds only on text starting with `+` or a digit; on canonical decimal it succeeds exactly when the value fits in 16 bits, and it is then the inverse of decimal display |
| `Transport.DecimalIsCanonical` | libsodacon/src/transport.rs:76 | the decimal display of a port is canonical digit text that denotes that number |
| `Transport.CanonicalDecimal` | libsodacon/src/transport.rs:65 | canonical digit text is exactly the decimal display of the number it denotes |
| `Transport.Display` | libsodacon/src/transport.rs:74-77 | the displayed text is the address, then a colon, then canonical decimal digits that denote the port |
| `Transport.New` | libsodacon/src/transport.rs:57-67 | fails with "bad endpoint deserialize" exactly when the text does not have exactly one colon; with one colon it succeeds exactly when the port text parses, and otherwise fails with the parse error; on success `addr` is the colon-free text before the colon and `port` is the parse of the text after it |
| `Transport.NewOfParts` | libsodacon/src/transport.rs:59-66 | `a:p` with colon-free `a` and `p` yields address `a` and the parse of `p`, or the parse error |
| `Transport.Get` | libsodacon/src/transport.rs:69-71 | `get` never fails and yields the displayed text (address, colon, decimal port) |
| `Transport.NewGetRoundTrip` | libsodacon/src/transport.rs:57-77 | for an endpoint whose address has no colon, parsing its rendered text gives the endpoint back |
| `Transport.NewNormalises` | libsodacon/src/transport.rs:57-77 | every endpoint `new` accepts survives another render and parse unchanged |
| `Transport.GetNewRoundTrip` | libsodacon/src/transport.rs:57-77 | rendering a parsed text reproduces it exactly when the text has one colon and its port part is canonical decimal that parses (both directions) |
| `Transport.SignedPortIsNormalised` | libsodacon/src/transport.rs:63-66 | `addr:+080` parses to port 80 and renders as `addr:80`, which differs from the input |
| `Transport.TestTransport.constructor` | libsodacon/src/transport.rs:87-91 | a new transport has an empty connection table and never fails |
| `Transport.TestTransport.AssertConnection` | libsodacon/src/transport.rs:93-95 | the table becomes the old table with the endpoint mapped to 0: its keys are the old keys plus the endpoint; no tracked state changes; the size grows by one exactly when the endpoint was new |
| `Transport.TestTransport.ProcessOnce` | libsodacon/src/transport.rs:101-107 | sets `didSomething` and returns exactly one `OnError("hello")` event; it changes no other state |
| `Transport.ConnectTwice` | libsodacon/src/transport.rs:93-95 | asserting the same endpoint twice leaves it tracked exactly once |
| `Transport.ItRuns` | libsodacon/src/transport.rs:110-125 | the module test's scenario: one tracked endpoint, one error event, and the work flag set |
| `Sym.RandBytes` | libsodacrypt/src/sym.rs:48 | the random source yields exactly the requested number of bytes, or fails when it cannot |
| `Sym.GenRandomPsk` | libsodacrypt/src/sym.rs:46-49 | a generated key has exactly the precomputed-key length (32); the only failure is the random source's |
| `Sym.Enc` | libsodacrypt/src/sym.rs:63-77 | plaintext over 4096 bytes fails with the size message whatever the key; otherwise a key that is not 32 bytes fails with `InvalidPresharedKey`; it succeeds exactly when both checks pass, and returns a 24-byte nonce with the data sealed under that nonce and the key |
| `Sym.Dec` | libsodacrypt/src/sym.rs:93-107 | a malformed nonce gives `InvalidNonce` whatever the key; with a good nonce, a malformed key gives `InvalidPresharedKey`; otherwise the result is the opened plaintext, or `FailedToDecrypt` when authentication fails; no other error occurs |
| `Sym.EncAcceptsLimit` | libsodacrypt/src/sym.rs:65-67 | a plaintext of exactly 4096 bytes with a good key is accepted |
| `Sym.GeneratedKeyIsAccepted` | libsodacrypt/src/sym.rs:46-49 | a key from `GenRandomPsk` passes `enc`'s key check |
| `Sym.EncDecRoundTrip` | libsodacrypt/src/sym.rs:10-13 | decrypting what `enc` produced, with the same key and its nonce, gives the plaintext |
| `Sym.TamperedIsRejected` | libsodacrypt/src/sym.rs:16-25 | a ciphertext other than the one `enc` produced never decrypts to the original plaintext: it fails with `FailedToDecrypt`, or it is a genuine sealing of another plaintext |
| `Sym.WrongKeyFailsToDecrypt` | libsodacrypt/src/sym.rs:99-106 | decrypting with a different well-formed key reports `FailedToDecrypt` |
| `NetMessage.GetMillis` | libsodacon/src/net/message.rs:8-13 | the result is the clock reading in whole milliseconds, rounded down: its thousands are the seconds, its remainder is the sub-second milliseconds (0 to 999) |
| `NetMessage.PingReq.New` | libsodacon/src/net/message.rs:30-36 | copies node id and discovery list unchanged, and stamps the sent time with the clock reading |
| `NetMessage.PingRes.New` | libsodacon/src/net/message.rs:48-55 | copies the origin time verbatim, stamps the response time with the clock reading, and copies node id and discovery list unchanged |
| `NetMessage.UserMessage.New` | libsodacon/src/net/message.rs:63-67 | the message carries exactly the given data |
| `NetMessage.PingResEchoesRequestTime` | libsodacon/src/net/message.rs:30-55 | a response built from a request's sent time echoes it, and the signed difference of its two stamps is the difference of the two clock readings, whichever is later |
| `NetMessage.SealBatch` | libsodacon/src/net/message.rs:85-88 | a batch serialisation failure is an `Encode` error; an `enc` error is returned unchanged (the size message for a serialised batch over 4096 bytes, `InvalidPresharedKey` for a bad key); a wrapper serialisation failure is an `Encode` error; it succeeds exactly when all three stages succeed, and the body is the serialised pair of nonce and ciphertext of the serialised batch |
| `NetMessage.Compile` | libsodacon/src/net/message.rs:79-104 | fails exactly when sealing fails, with the same error; on success the request keeps its type, has method `POST`, path `/` followed by the session id, code `200`, status `OK`, an `application/octet-stream` content type, and the sealed body |
| `NetMessage.Parse` | libsodacon/src/net/message.rs:106-111 | a wrapper decode failure is a `Decode` error; a decryption error is returned unchanged; the only errors are decode errors and the three crypto kinds; when the plaintext decrypts, the result is the batch it decodes to, or a `Decode` error with the decoder's reason; on success the batch is the decoding of the authenticated plaintext |
| `NetMessage.ParseSealBatchRoundTrip` | libsodacon/src/net/message.rs:85-88 | with a lossless serialiser and authenticated encryption, parsing a sealed body under its key returns the original batch in its original order |
| `NetMessage.ParseWithOtherKeyFailsToDecrypt` | libsodacon/src/net/message.rs:108 | opening a sealed body with a different well-formed key gives `FailedToDecrypt`, not a batch decode error |
| `NetMessage.ParseStopsAtWrapper` | libsodacon/src/net/message.rs:107 | when the wrapper does not decode, the outcome is a decode error that depends on neither the key, the cipher, nor the batch decoder, so no decryption happened |
| `NetMessage.ParseStopsAtDecryption` | libsodacon/src/net/message.rs:108-109 | a decryption error is returned unchanged, whatever the batch decoder would do |
| `NetMessage.CompileThenParse` | libsodacon/src/net/message.rs:79-111 | end to end: `compile` succeeds exactly when sealing does, and then `parse` of the request's body under the same key is exactly the original batch, which is returned |

## Left out

- `init::check()`, the library initialisation guard at the start of `gen_random_psk`, `enc` and `dec`, is not modelled. The model treats the library as initialised.
- curve25519xsalsa20poly1305 `seal_precomputed`/`open_precomputed` are foreign primitives. They are the `Cipher` parameter, and the lemmas state their guarantees as the idealised `Authenticated` hypothesis. Real authentication holds only with overwhelming probability. Nothing constrains the ciphertext's length.
- `gen_nonce` and `rand_bytes` are randomness. The nonce is a parameter of type `Nonce`, and random bytes are drawn from an entropy-pool parameter. Nonce uniqueness is probabilistic and cannot be stated.
- rmp_serde MessagePack encoding is the `Codec` parameter. The byte format is not modelled.
- `http::Request::new`, `http::RequestType` and `Request::generate` belong to `net::http`, which is not part of this model. The request is a plain record whose fields start out empty. `Compile` returns that record, not the bytes `generate` would render from it.
- `net::endpoint::Endpoint` is not part of this model. Its values are kept as their byte encoding (`NetEndpoint`).
- `duration_since(UNIX_EPOCH).unwrap()` in `get_millis` panics on a clock set before the epoch. The model's clock reading is a count of seconds since the epoch, so that case cannot be expressed.
- `SystemTime::now()` in `get_millis` is a clock read. The clock reading is an input, and `PingReq.New`/`PingRes.New` take the resulting milliseconds.
- GetMillis: requires the seconds count to be far enough from the `u64` limit that the millisecond value fits. The source's `* 1000` would overflow only about 584 million years after the epoch.
- `get` returns the UTF-8 bytes of the displayed text (`as_bytes().to_vec()`). `Get` returns the text itself, as text is how endpoints are modelled throughout.
- `String::from_utf8_lossy` in `TestEndpoint::new` is not modelled. The raw endpoint bytes are taken as text that is already decoded. Since `:` is ASCII, splitting before or after decoding gives the same parts.
- ParseU16: does not distinguish the kinds of `ParseIntError` (empty, invalid digit, overflow). The kind assigned to a lone `+` differs between Rust versions. Every failure is `ParseInt`.
- The `Endpoint`, `Transport` and `PollEvent` traits are interfaces. They are modelled through their one implementation here: `TestEndpoint` and `TestTransport`.
- `println!` output in the module test, and the derived `Debug`, `Hash` and `Clone` implementations, are not modelled. The model uses Dafny's built-in value equality.
- `lib3h/src/message.rs` holds only data types with one-line serialiser wrappers. It is not part of this model.
