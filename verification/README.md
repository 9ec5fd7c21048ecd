# reverSSH, verified model

A model in Dafny 4.11 of reverSSH, an SSH relay with its own cryptography, framing and channel
multiplexing, with proofs of what it promises. `dafny verify dfyconfig.toml` checks everything.

An operator connects with SSH to a relay; the relay asks a reverse client, which has connected
from the inside, for approval, and then carries SSH channels to it over a private protocol.

## Parts

| files | what they model |
|---|---|
| `NumberTheory`, `SquareRoots`, `Edwards`, `EdwardsDenominators`, `EdwardsClosure`, `EdwardsRecovery`, `EdwardsMultiples`, `PointEncoding`, `Ed25519`, `Ed25519Constants`, `EulerCertificate` | Ed25519: field and curve arithmetic, point encoding, signing and verifying |
| `Montgomery`, `Curve25519` | X25519: the ladder with deferred swaps |
| `ChaCha20`, `ChaCha20Rounds`, `Poly1305` | stream cipher and authenticator |
| `Bits`, `Bytes32`, `Wrappers` | bytes, bit operations on unbounded integers, little and big endian numbers, options |
| `SshEncoding`, `PrivateProtocol`, `WireFormats` | wire encodings, the Reader, and the messages between relay and client; every format byte by byte |
| `Sockets`, `Framing`, `WebSocketFrames`, `WebSocket`, `FrameSocket` | sockets as byte queues with arbitrary read sizes, and the byte stream layers on top |
| `SshCipher`, `SshPacket`, `KeyDerivation` | the SSH transport with a cipher switch at any packet |
| `Runs` | transition systems with output, and what holds over all their runs |
| `ChannelMessages`, `Windows`, `FlowControl`, `SshChannels`, `CreditLedger`, `RelayCredit` | windows in both directions; the operator and the router together |
| `RelayMux`, `RelayRouting`, `RelayTraces`, `RelayEarlyClose`, `RelayForwarded`, `RelayWire`, `RelayNumbers`, `RelayTranscript`, `RelayChanges`, `RelayTeardown`, `RelayServer` | routing between the two id spaces, as a state machine and as the imperative handlers that refine it |
| `RelayThreads` | one channel of the relay and the two threads that work on it, line by line |
| `AuthGate`, `AuthHistory`, `AuthReplies`, `AuthServer`, `OperatorLogin` | the authentication gate, likewise |
| `ClientChannels`, `ClientTraces`, `ClientTranscript`, `ReverseClient` | the reverse side: approval, dispatch, the threads that send channel data, likewise |
| `StrictMode`, `StrictAnswers` | the gate and a client with an allowlist, joined by the frames between them |
| `Sftp`, `SftpRuns`, `SftpDispatch` | the SFTP request loop |

## How it is modelled

- Bytes are integers 0..255. Numbers of the program are unbounded integers as in Python; every
  reduction, mask and field width of the program is written out. Text is its UTF-8 bytes, and
  which byte strings are valid is a parameter.
- An exception is `None`, `false` or an outcome value, on the same branch as in the program.
- The cryptographic modules are written over parameters (modulus, curve, base point). What is
  taken as given stands in the `requires` clauses: primality of the modulus,
  associativity of the addition on the curve and L * B being the identity for Ed25519 (that D is
  not a square is proved for the number of the program);
  for X25519 a family of multiples that obeys the doubling and differential addition laws.
  Fermat's theorem, inverses, square roots, closure, completeness and commutativity of the
  addition are proved.
- SHA-256 and SHA-512 are arbitrary functions into 32 and 64 bytes, randomness is an arbitrary
  choice, and what the file system answers is an oracle.
- A section under a lock is one atomic step. A wait is a step that may find an answer, a closed
  channel or a passed deadline. Flow control runs against a schedule that says what other
  threads do before each time the sender holds the lock.
- In `RelayMux` and `Relay` one message is handled in one step. `RelayThreads` takes the handlers
  apart: there a thread finds the channel in a dictionary in one step and does the rest in later
  ones, with the other thread in between.
- A thread of the client looks at the `closed` flag of its channel in one step and sends, or sets
  the flag, in a later one; other threads may run in between.
- Objects that the program changes are classes with the same fields (`Reader`,
  `WebSocketStream`, `FrameStream`, `PacketStream`, `SshChannel`, `Relay`, `Server`,
  `OperatorApproval`, `ReverseClientConnection`, `SFTPServer`). The handlers of the relay, of
  authentication and of the client are proved to be single steps of a state machine on values, the
  theorems over all runs are about that machine, and each class has one about its own log after
  any sequence of calls. `Relay` holds the dictionaries of one reverse client and of all SSH
  connections bound to it; channel objects that several dictionaries share are positions in one
  sequence.

## Where code and expectation differ

- Point decoding accepts some encodings that section 5.1.3 of RFC 8032 rejects
  (`PointEncoding.DecodingReduced` says exactly which, `SignedZeroAccepted` and
  `LargeOrdinateAccepted` give one of each kind).
- X25519 does not mask bit 255 of u (`Curve25519.TopBitMatters`).
- A client that closes a channel before confirming it leaves an entry in the connection's
  dictionary that the client's dictionary no longer has (`RelayEarlyClose.UnstoredExactly` says
  that this is the only way, `RelayTraces.ClosedBeforeConfirmed` gives a run).
- A forwarded TCP channel sends EOF and CLOSE behind a CLOSE exactly when the operator has closed
  it before its TCP connection ends (`RelayForwarded.BehindAClose`).
- A request for a channel that the relay does not list is answered under the relay's own id for
  it, which the operator takes for its own number: CHANNEL_FAILURE can follow a CLOSE, or reach
  another channel (`RelayNumbers.FailureBehindClose` says exactly when,
  `RelayNumbers.FailureAfterClose` gives a run).
- When the handlers of the two threads of the relay overlap, something can follow a CLOSE to the
  operator, even another CLOSE (`RelayThreads.BehindClose` says exactly when,
  `RelayThreads.BothClose` and `RelayThreads.RaisedCloses` give runs); towards the client CLOSE is
  final under every schedule.
- An operator that does not open the window of one channel for a minute, or closes it while data
  is waiting, ends the reader of the reverse client, and with it the channels of every other
  operator of that client (`RelayTeardown.OneDeliveryClosesAll` says exactly when).
- The client can send data, and even another CLOSE, behind a CLOSE (`ClientTraces.BehindClose` and
  `ClientTraces.SecondClose` say exactly when, `ClientTraces.DataBehindClose` gives a run).
- A name that cannot be described makes READDIR lose its whole batch
  (`SftpRuns.ReaddirReplies`, `SftpRuns.ToldIsVisited`).
- While a connection is authenticating, an ignorable message ends it
  (`AuthHistory.IgnorableIsIgnored`).

## Model

| member | source | states |
|---|---|---|
| `NumberTheory.Fermat` | reverssh/crypto/ed25519.py:17-18 | for a prime p and every a that p does not divide, a^(p-1) leaves 1 modulo p (proved from the binomial theorem) |
| `NumberTheory.InverseByPower` | reverssh/crypto/ed25519.py:17-18 | for a prime p, x^(p-2) mod p is the inverse of every x that p does not divide, and 0 otherwise |
| `SquareRoots.TwoIsNotASquare` | reverssh/crypto/ed25519.py:9 | 2^((p-1)/2) = -1 for every prime p = 5 mod 8, by counting the even residues |
| `SquareRoots.RootOfMinusOne` | reverssh/crypto/ed25519.py:9 | 2^((p-1)/4) squares to -1 for every prime p = 5 mod 8: the constant I is what it is used for |
| `SquareRoots.CandidateRoot` | reverssh/crypto/ed25519.py:53 | for a square v, v^((p+3)/8) squares to v or to -v |
| `SquareRoots.SquareRootFinds` | reverssh/crypto/ed25519.py:53-57 | every square has its root found: the error is raised only for non-squares |
| `EdwardsDenominators.DenominatorsNonZero` | reverssh/crypto/ed25519.py:24-26 | for points on the curve neither denominator of the addition is 0 mod P, because D is not a square |
| `EdwardsClosure.AddEquations` | reverssh/crypto/ed25519.py:21-27 | the sum satisfies the two addition equations with its denominators multiplied out, and is reduced |
| `EdwardsClosure.AddClosed` | reverssh/crypto/ed25519.py:21-27 | the sum of two points on the curve is on the curve, with coordinates in 0..P-1 |
| `EdwardsClosure.AddCommutes` | reverssh/crypto/ed25519.py:21-27 | addition does not depend on the order of its operands |
| `EdwardsClosure.AddIdentity` | reverssh/crypto/ed25519.py:14-27 | (0, 1) is neutral for every reduced point |
| `EdwardsRecovery.OnCurveIffSquare` | reverssh/crypto/ed25519.py:52 | a pair is on the curve exactly when x squares to (y*y-1) * inv(D*y*y+1): that denominator is never 0 |
| `EdwardsRecovery.RecoverXSound` | reverssh/crypto/ed25519.py:52-60 | a recovered x lies on the curve with y, in 0..P, with the parity asked for |
| `EdwardsRecovery.RecoverXFinds` | reverssh/crypto/ed25519.py:52-60 | recovery succeeds for the y of every point on the curve |
| `EdwardsRecovery.RecoverXUnique` | reverssh/crypto/ed25519.py:52-60 | from its own y and parity every reduced point gets its own x back |
| `EdwardsRecovery.RecoverXReduced` | reverssh/crypto/ed25519.py:58-60 | the unreduced value x = P is returned exactly when the sign bit is set and y*y = 1 modulo P |
| `EdwardsMultiples.MultipleAdd` | reverssh/crypto/ed25519.py:30-37 | (m + n) P = m P + n P in the group |
| `EdwardsMultiples.MultipleOfMultiple` | reverssh/crypto/ed25519.py:30-37 | k (n P) = (k n) P |
| `EdwardsMultiples.MultipleModOrder` | reverssh/crypto/ed25519.py:89 | multiples may be reduced modulo an order of the point |
| `EdwardsMultiples.ScalarMult` | reverssh/crypto/ed25519.py:30-37 | the loop computes double-and-add for every scalar |
| `EdwardsMultiples.ScalarMultIsMultiple` | reverssh/crypto/ed25519.py:30-37 | double-and-add is the s-fold sum of the point, for every s |
| `EdwardsMultiples.ScalarMultAdditive` | reverssh/crypto/ed25519.py:30-37 | scalar multiplication is additive in the scalar |
| `EdwardsMultiples.ScalarMultComposes` | reverssh/crypto/ed25519.py:30-37 | multiplying by n and then by k is multiplying by k n |
| `PointEncoding.EncodePoint` | reverssh/crypto/ed25519.py:40-44 | setting the top bit in place yields the encoding of section 5.1.2 of RFC 8032 |
| `PointEncoding.DecodePoint` | reverssh/crypto/ed25519.py:47-60 | the step by step computation agrees with the decoding function, errors included |
| `PointEncoding.DecodingSound` | reverssh/crypto/ed25519.py:47-60 | a decoded point is on the curve and its y is the low 255 bits |
| `PointEncoding.DecodingAccepts` | reverssh/crypto/ed25519.py:47-60 | 32 bytes decode exactly when their low 255 bits are the y of a point on the curve |
| `PointEncoding.DecodingOfEncoding` | reverssh/crypto/ed25519.py:40-60 | decode(encode(p)) = p for every reduced point on the curve (section 5.1.3 of RFC 8032) |
| `PointEncoding.EncodingOfDecoding` | reverssh/crypto/ed25519.py:40-60 | encode(decode(raw)) = raw for everything that decodes |
| `PointEncoding.DecodingReduced` | reverssh/crypto/ed25519.py:50-60 | the decoded coordinates are canonical exactly when the 255 bits are below P and not (the sign bit set and y*y = 1 modulo P): section 5.1.3 of RFC 8032 rejects the others, the program does not |
| `PointEncoding.SignedZeroAccepted` | reverssh/crypto/ed25519.py:58-60 | it happens: y = 1 with the sign bit set decodes to (P, 1) |
| `PointEncoding.LargeOrdinateAccepted` | reverssh/crypto/ed25519.py:50-52 | it happens: the 255 bits of y = P are accepted |
| `PointEncoding.DecodingIs` | reverssh/crypto/ed25519.py:47-60 | a string decodes to a point if and only if it has 32 bytes and the point is on the curve, with y from the low 255 bits and x, in 0..P, of the parity of the top bit |
| `Ed25519.ClampedRange` | reverssh/crypto/ed25519.py:67-71 | the secret scalar is a multiple of 8 in [2^254, 2^255) |
| `Ed25519.ClampedValue` | reverssh/crypto/ed25519.py:67-71 | as a number the clamped half is 2^254 plus 8 times bits 3 to 253 |
| `Ed25519.PublicKeyIs` | reverssh/crypto/ed25519.py:74-80 | the public key encodes the multiple of B by 2^254 + 8 (LE(h(seed)[..32]) / 8 mod 2^251) |
| `Ed25519.SecretScalar` | reverssh/crypto/ed25519.py:63-71 | the in-place edits give the clamped scalar and the prefix; none for a seed that is not 32 bytes |
| `Ed25519.PublicFromSeed` | reverssh/crypto/ed25519.py:78-80 | the public key is the encoded multiple of the base point |
| `Ed25519.Sign` | reverssh/crypto/ed25519.py:83-90 | the method returns the signature function, which SignatureIs gives in terms of the hash and the base point; none for a seed that is not 32 bytes |
| `Ed25519.SignatureIs` | reverssh/crypto/ed25519.py:83-90 | with a the number above: the first half of the signature encodes, and decodes to, r B for r = h(h(seed)[32..] + message) mod L, and the second half is (r + h(R + public + message) a) mod L (section 5.1.6 of RFC 8032) |
| `Ed25519.WrongSeed` | reverssh/crypto/ed25519.py:63-66 | there is neither a public key nor a signature for a seed that is not 32 bytes |
| `Ed25519.Verify` | reverssh/crypto/ed25519.py:93-107 | the answer is the acceptance predicate, with every length, range and decoding check |
| `Ed25519.SignatureEquation` | reverssh/crypto/ed25519.py:86-90 | ((r + k a) mod L) B = r B + k (a B) |
| `Ed25519.SignaturesVerify` | reverssh/crypto/ed25519.py:83-107 | every signature made with a seed is accepted under the public key of that seed, for all seeds and messages |
| `Ed25519.AcceptsMeans` | reverssh/crypto/ed25519.py:93-107 | acceptance holds exactly when S < L, both points decode and S B = R + k A |
| `Ed25519.AcceptedIs` | reverssh/crypto/ed25519.py:93-107 | a signature is accepted if and only if lengths fit, key and first half stand for points A and R of the curve, the second half S is below L, and S B = R + (h(R + public + message) mod L) A, written out in bytes |
| `Ed25519Constants.ConstantsAreSound` | reverssh/crypto/ed25519.py:6-14 | the numbers of the program satisfy what the proofs assume: B is on the curve and reduced, I squares to -1, 121666 D = -121665, D is not a square |
| `Ed25519Constants.DIsNotASquare` | reverssh/crypto/ed25519.py:8 | D has no square root modulo P, by Euler's criterion and 254 squarings with their intermediate values |
| `Ed25519Constants.Ed25519Completeness` | reverssh/crypto/ed25519.py:83-107 | completeness for the constants of the program, from three facts: P prime, associativity, L B = identity |
| `Curve25519.ClampScalar` | reverssh/crypto/curve25519.py:7-14 | the three byte edits give the clamped scalar, whose value ClampedValue gives |
| `Curve25519.ClampedRange` | reverssh/crypto/curve25519.py:7-14 | a clamped scalar is a multiple of 8 in [2^254, 2^255), so bits 254..0 are all of it |
| `Curve25519.ClampedValue` | reverssh/crypto/curve25519.py:7-14 | for every 32 bytes the clamped scalar is 2^254 plus 8 times bits 3 to 253 |
| `Curve25519.StepDoubles` | reverssh/crypto/curve25519.py:34-46 | the doubling half of an iteration is ((x^2-z^2)^2, 4xz(x^2+486662xz+z^2)) mod P |
| `Curve25519.StepAdds` | reverssh/crypto/curve25519.py:34-44 | the other half is (4(x2x3-z2z3)^2, 4 x1 (x3z2-z3x2)^2) mod P |
| `Montgomery.DiffAddSymmetric` | reverssh/crypto/curve25519.py:29-31 | differential addition does not change when its operands are swapped |
| `Montgomery.DoubleSame` | reverssh/crypto/curve25519.py:34-46 | doubling respects projective scaling |
| `Montgomery.DiffAddSame` | reverssh/crypto/curve25519.py:34-44 | differential addition respects projective scaling |
| `Montgomery.AffineIsQuotient` | reverssh/crypto/curve25519.py:51 | x z^(P-2) times z is congruent to x, and it is 0 when z is 0 |
| `Montgomery.AffineSame` | reverssh/crypto/curve25519.py:51 | the result depends only on the projective point |
| `Curve25519.DeferredStep` | reverssh/crypto/curve25519.py:26-46 | one iteration with its deferred swap, undone at the end, is one iteration of the plain ladder |
| `Curve25519.X25519` | reverssh/crypto/curve25519.py:17-52 | the loop with deferred swaps computes the plain Montgomery ladder for every scalar and u, the bytes of which SharedIsMultiple gives; 32 bytes, or an error for other lengths |
| `Curve25519.LadderHoldsMultiples` | reverssh/crypto/curve25519.py:26-46 | before bit t the ladder holds the multiples with factors k >> t and (k >> t) + 1, for any family that obeys the doubling and addition laws |
| `Curve25519.LadderIsMultiple` | reverssh/crypto/curve25519.py:17-52 | the ladder returns the coordinate of the k-fold multiple, u = 0 included |
| `Curve25519.SharedIsMultiple` | reverssh/crypto/curve25519.py:17-52 | the output bytes are the coordinate of the multiple by 2^254 + 8 (LE(scalar) / 8 mod 2^251) |
| `Curve25519.PublicFromPrivate` | reverssh/crypto/curve25519.py:55-56 | the public key is computed from the u coordinate 9 |
| `Curve25519.PublicIsMultiple` | reverssh/crypto/curve25519.py:55-56 | the public key is the coordinate of the multiple of the point with u = 9 by 2^254 + 8 (LE(private) / 8 mod 2^251) |
| `Curve25519.SharedTwice` | reverssh/crypto/curve25519.py:17-52 | applying two scalars one after the other is multiplying by their product |
| `Curve25519.Agreement` | reverssh/crypto/curve25519.py:17-56 | both sides of a key exchange compute the same secret |
| `Curve25519.TopBitMatters` | reverssh/crypto/curve25519.py:21 | reading u agrees with section 5 of RFC 7748, which masks bit 255, exactly when that bit is 0 |
| `Poly1305.Poly1305Mac` | reverssh/crypto/poly1305.py:6-18 | the Horner loop computes the polynomial in r over the marked chunks, plus s mod 2^128, for every message length (section 2.5 of RFC 8439) |
| `Poly1305.MacIs` | reverssh/crypto/poly1305.py:6-18 | the tag is (c_1 r^q + ... + c_q r mod 2^130 - 5, plus the second half of the key) mod 2^128, with r the first half with the bits of section 2.5 of RFC 8439 cleared byte by byte, and each coefficient a chunk with a one behind it |
| `Poly1305.PolynomialAppend` | reverssh/crypto/poly1305.py:13-16 | one more coefficient multiplies the polynomial by r once more |
| `Poly1305.CoefficientsInjective` | reverssh/crypto/poly1305.py:13-15 | different messages have different coefficient lists |
| `ChaCha20.RotlInverse` | reverssh/crypto/chacha.py:6-7 | rotating by shift and then by 32 - shift gives the word back |
| `ChaCha20.QuarterRoundBijective` | reverssh/crypto/chacha.py:10-18 | the quarter round is a bijection, with its inverse |
| `ChaCha20.QuarterRound` | reverssh/crypto/chacha.py:10-18 | the in-place quarter round changes exactly the four words named and no other |
| `ChaCha20.DoubleRoundsBijective` | reverssh/crypto/chacha.py:33-41 | any number of double rounds is a bijection on states |
| `ChaCha20.RunDoubleRounds` | reverssh/crypto/chacha.py:33-41 | the loop performs the eight quarter rounds of the schedule that many times |
| `ChaCha20.ChaCha20Block` | reverssh/crypto/chacha.py:21-43 | the block function, whose words BlockIs gives; none for wrong key or nonce lengths |
| `ChaCha20.BlockIs` | reverssh/crypto/chacha.py:21-43 | word i of a block is the sum modulo 2^32 of word i before and behind the ten double rounds; the words before them are the four constants, the key, the counter in two halves, and the nonce |
| `ChaCha20Rounds.Rotations` | reverssh/crypto/chacha.py:6-7 | the four rotations as shifts by division and multiplication |
| `ChaCha20Rounds.QuarterRoundIs` | reverssh/crypto/chacha.py:10-18 | a quarter round is four steps, each an addition modulo 2^32, an exclusive or and a rotation by 16, 12, 8 and 7 (section 2.1 of RFC 8439) |
| `ChaCha20Rounds.DoubleRoundIs` | reverssh/crypto/chacha.py:33-41 | one more double round is the quarter round on each column and then on each diagonal (section 2.3 of RFC 8439) |
| `ChaCha20Rounds.NoRounds` | reverssh/crypto/chacha.py:32-33 | and no double rounds leave the state as it is |
| `ChaCha20.BlockWraps` | reverssh/crypto/chacha.py:29-30 | a block depends on its counter modulo 2^64 only |
| `ChaCha20.ChaCha20Xor` | reverssh/crypto/chacha.py:46-54 | the loop with its wrapping counter is bytewise exclusive or with the key stream block at counter + i/64 mod 2^64 |
| `ChaCha20Rounds.CipherTextIs` | reverssh/crypto/chacha.py:46-54 | byte i of a cipher text is byte i of the data, exclusive or byte i mod 64 of a block that starts from counter + i / 64, in which every word is the sum of the two states |
| `ChaCha20.XoredInvolution` | reverssh/crypto/chacha.py:46-54 | encrypting twice gives the data back, and the length never changes |
| `ChaCha20.CipheredSplits` | reverssh/crypto/chacha.py:46-54 | encryption may be split at any multiple of 64 bytes |
| `SshEncoding.StringRoundTrip` | reverssh/ssh_encoding.py:32-35 | a written string is read back, whatever follows |
| `SshEncoding.StringReadIsWritten` | reverssh/ssh_encoding.py:32-35 | whatever is read as a string was written as that string |
| `SshEncoding.MpintRoundTrip` | reverssh/ssh_encoding.py:42-50 | a written mpint is read back |
| `SshEncoding.MpintReadBack` | reverssh/ssh_encoding.py:42-50 | the bytes of a non-negative mpint are rewritten as they were exactly when they are minimal (section 5 of RFC 4251) |
| `SshEncoding.NameListRoundTrip` | reverssh/ssh_encoding.py:38-39 | a name list is read back exactly when no name has a comma and the list is not the single empty name |
| `WireFormats.StringIs` | reverssh/ssh_encoding.py:32-35 | a string is its length in four bytes, highest first, and then its bytes; an error exactly when the length does not fit |
| `WireFormats.NameListReadIs` | reverssh/ssh_encoding.py:105-109 | names are read from a string if and only if it is the names with commas in between and no name has one; an empty string has none |
| `SshEncoding.Reader.Take` | reverssh/ssh_encoding.py:77-82 | a read returns the next bytes and moves past them, or fails without moving |
| `SshEncoding.Reader.Boolean` | reverssh/ssh_encoding.py:87-91 | only 0 and 1 are booleans |
| `SshEncoding.Reader.Text` | reverssh/ssh_encoding.py:102-103 | a string whose bytes are valid UTF-8 |
| `SshEncoding.Reader.NameList` | reverssh/ssh_encoding.py:105-109 | the names between commas; none for an empty string |
| `SshEncoding.Reader.Mpint` | reverssh/ssh_encoding.py:111-117 | non-negative numbers only |
| `SshEncoding.Reader.Eof` | reverssh/ssh_encoding.py:119-121 | succeeds exactly when everything has been read |
| `PrivateProtocol.PackIsPackAll` | reverssh/private_protocol.py:53-176 | every pack_* is the concatenation of its encoded fields |
| `PrivateProtocol.UnpackedInverse` | reverssh/private_protocol.py:53-176 | for each of the ten message kinds, a payload unpacks to a message exactly when the message packs to that payload |
| `PrivateProtocol.PackInjective` | reverssh/private_protocol.py:53-176 | two different messages of one kind never pack to the same payload |
| `PrivateProtocol.Unpack` | reverssh/private_protocol.py:57-176 | for each of the ten message kinds, reading the fields one after the other with a Reader and asking for the end returns the one message that packs to the payload, and fails when there is none |
| `PrivateProtocol.OpeningInverse` | reverssh/private_protocol.py:103-113 | for any JSON writer and reader of which the second undoes the first, OPEN_CHANNEL gives back what was packed and nothing else |
| `WireFormats.PackIs` | reverssh/private_protocol.py:53-176 | for each of the ten message kinds, pack writes exactly these bytes, field by field, and fails exactly when a number or a length does not fit 32 bits |
| `WireFormats.FrameIs` | reverssh/private_protocol.py:37-42 | a frame is the length of what follows in four bytes, the type byte, and the payload, and a frame is read exactly where one stands |
| `FrameSocket.RecvExactly` | reverssh/ssh_packet.py:16-23 | succeeds exactly when that many bytes are still to come, however recv cuts them, over a socket or a WebSocket |
| `FrameSocket.FrameStream.SendFrame` | reverssh/private_protocol.py:37-42 | the log of sent frames grows by one and the bytes sent are exactly the frames of the log; nothing is sent when the body is over 16 MiB |
| `FrameSocket.FrameStream.ReadFrame` | reverssh/private_protocol.py:44-50 | the first frame of the pending bytes, added to the log of received frames, or an error for a bad length, an unknown type or the end |
| `FrameSocket.PrivateRoundTrip` | reverssh/private_protocol.py:37-50 | reading undoes sending, whatever follows |
| `FrameSocket.PrivateFramesComeBack` | reverssh/private_protocol.py:37-50 | any sequence of frames comes back from the concatenation of its encodings |
| `FrameSocket.LayersCompose` | reverssh/private_protocol.py:32-50 | after any number of reads, a stream whose bytes came in WebSocket data messages, under any fragmentation and with pings and pongs in between, has received the first of the frames in them, in order, and the others are pending |
| `FrameSocket.FramesArriveInOrder` | reverssh/private_protocol.py:32-50 | sender and receiver as objects, after any number of calls: the receiver has exactly the first frames sent, in order, and reads the next one next |
| `FrameSocket.FramesArriveOverWebSocket` | reverssh/private_protocol.py:32-50 | the same for two ends that are joined by the bytes of a WebSocket stream each |
| `FrameSocket.Transport.Recv` | reverssh/websocket.py:25-32 | on both kinds of transport recv returns the front of what is pending and sends no data |
| `FrameSocket.Transport.SendAll` | reverssh/websocket.py:34-37 | on both kinds of transport exactly the data is appended to the bytes sent |
| `WebSocketFrames.ReadUndoesFrame` | reverssh/websocket.py:74-105 | reading a frame undoes writing it, for every payload, all three length forms, masked or not (section 5.2 of RFC 6455) |
| `WebSocketFrames.FirstFrameStable` | reverssh/websocket.py:74-89 | a complete frame is not changed by what arrives behind it |
| `WebSocketFrames.FrameAppended` | reverssh/websocket.py:91-105 | a wire of whole frames stays one when a frame is written |
| `WebSocketFrames.DeliveredIsPrefix` | reverssh/websocket.py:55-72 | what is handed on is a prefix of the concatenated data payloads, whatever the fragmentation and the pings and pongs |
| `WebSocketFrames.DeliveredIsAll` | reverssh/websocket.py:55-72 | and all of them when the last data message is finished |
| `WebSocketFrames.PongsAppend` | reverssh/websocket.py:62-64 | the answers to two stretches of frames are the answers to both, in order |
| `WireFormats.WebSocketFrameIs` | reverssh/websocket.py:91-105 | a frame is, byte by byte, the final bit with the opcode, the mask bit with the length in one of its three forms, the mask, and the payload under it (section 5.2 of RFC 6455) |
| `WireFormats.MaskedIs` | reverssh/websocket.py:104 | byte i of a masked payload is byte i of the payload, exclusive or byte i mod 4 of the mask |
| `WireFormats.PongsAre` | reverssh/websocket.py:62-64 | what is answered to a stream is one pong, opcode 10, for each ping, opcode 9, with its payload, and nothing else |
| `WireFormats.DeliveredStops` | reverssh/websocket.py:55-69 | behind a close frame, or a frame of an unknown kind, nothing is delivered |
| `WebSocket.RecvExact` | reverssh/websocket.py:223-230 | exactly the next bytes of the socket, however recv cuts them, or an error at the end |
| `WebSocket.ReadFirstFrame` | reverssh/websocket.py:74-89 | the first frame of the wire is taken off it |
| `WebSocket.WebSocketStream.SendFrame` | reverssh/websocket.py:91-105 | one frame is added to the frames sent, under a fresh mask when the stream masks |
| `WebSocket.WebSocketStream.SendAll` | reverssh/websocket.py:34-37 | one binary frame, unless the stream is closed |
| `WebSocket.WebSocketStream.Close` | reverssh/websocket.py:42-53 | a close frame is sent once |
| `WebSocket.WebSocketStream.ReadFrame` | reverssh/websocket.py:74-89 | exactly one frame leaves the wire |
| `WebSocket.WebSocketStream.ReadNextMessage` | reverssh/websocket.py:55-72 | reading a message changes what is buffered but not what is pending, and every ping on the way is answered by one pong, in order |
| `WebSocket.WebSocketStream.Recv` | reverssh/websocket.py:25-32 | after any number of calls, what was returned and what is pending make up what came in; each call returns the front of what is pending |
| `SshCipher.OpenUndoesSeal` | reverssh/ssh_packet.py:37-58 | decrypting undoes encrypting for any key streams and any tag function |
| `SshCipher.Encrypt` | reverssh/ssh_packet.py:37-43 | the sealed packet, computed with ChaCha20 and Poly1305 |
| `SshCipher.Decrypt` | reverssh/ssh_packet.py:45-58 | the opened packet, or an error for a short packet or a wrong tag |
| `SshCipher.EncryptIs` | reverssh/ssh_packet.py:37-43 | byte by byte: the length is encrypted with the second half of the key from block 0, the rest with the first half from block 1, and the tag is over both, under the first 32 bytes of block 0 of the first half; the nonce is the sequence number in eight bytes |
| `SshCipher.DecryptIs` | reverssh/ssh_packet.py:45-58 | a packet is opened, and to these bytes, if and only if it is what EncryptIs says of them |
| `SshCipher.DecryptLengthIs` | reverssh/ssh_packet.py:60-65 | the length read ahead, byte by byte |
| `SshCipher.ConstantTimeEqual` | reverssh/ssh_packet.py:68-74 | the accumulated difference is 0 exactly for equal strings |
| `SshCipher.OpenSSHIsSound` | reverssh/ssh_packet.py:37-65 | under one sequence number decryption undoes encryption, 16 bytes are added, and the length read ahead is the length of the opened packet |
| `SshPacket.PaddingUnique` | reverssh/ssh_packet.py:122-129 | exactly one padding size in 4..11 aligns the packet (section 6 of RFC 4253) |
| `SshPacket.PadLength` | reverssh/ssh_packet.py:124-128 | the loop finds that padding size |
| `SshPacket.BuildPlainPacket` | reverssh/ssh_packet.py:122-132 | length, padding size, payload and padding; an error exactly when the length does not fit 32 bits |
| `WireFormats.PlainPacketIs` | reverssh/ssh_packet.py:122-132 | a plain packet is length, padding size, payload and 4 to 11 bytes of padding, a multiple of 8 in all, the length left out under the cipher |
| `WireFormats.PacketIs` | reverssh/ssh_packet.py:100-120 | without a cipher a packet is read if and only if it stands there: a length from 5 to 256 KiB, a padding size from 4 that leaves room, and that much behind it |
| `SshPacket.PacketRoundTrip` | reverssh/ssh_packet.py:91-132 | read_packet undoes send_packet under the same cipher and sequence number, exactly for the packets within 256 KiB; longer ones are rejected |
| `SshPacket.RunRoundTrip` | reverssh/ssh_packet.py:91-120 | whole runs: under any schedule of ciphers the first n packets come back in order and the rest stays on the wire |
| `SshPacket.PacketStream.SendPacket` | reverssh/ssh_packet.py:91-98 | the log of sent packets grows by one, the bytes sent are exactly the packets of the log, and the sequence number counts them mod 2^32 |
| `SshPacket.PacketStream.ReadPacket` | reverssh/ssh_packet.py:100-120 | the first packet of the pending bytes under the current cipher; the sequence number advances before the padding is checked |
| `SshPacket.PacketsArriveInOrder` | reverssh/ssh_packet.py:77-120 | sender and receiver as objects: as long as every packet was read under the cipher it was sent under, the receiver has exactly the first packets sent, in order, across any number of cipher switches |
| `SshPacket.NextPacketArrives` | reverssh/ssh_packet.py:77-120 | and the next packet is read as soon as the receiver has its cipher |
| `KeyDerivation.DeriveKey` | reverssh/relay.py:76-81 | the loop computes K1, K2, ... of section 7.2 of RFC 4253 and cuts them to the length |
| `KeyDerivation.KeyFromAnyBlocks` | reverssh/relay.py:78-81 | the key is the beginning of the expansion, whatever the number of blocks |
| `KeyDerivation.KeyIs` | reverssh/relay.py:76-81 | block 0 of a key is the hash of secret, exchange hash, letter and session, and block i that of secret, exchange hash and the key up to there (section 7.2 of RFC 4253) |
| `KeyDerivation.KeysExtend` | reverssh/relay.py:76-81 | a longer key continues a shorter one |
| `KeyDerivation.DerivedCipherIsSound` | reverssh/relay.py:616-621 | the 64 derived bytes are a key the cipher accepts, and it decrypts what it encrypts |
| `SshChannels.SshChannel.SetRecipient` | reverssh/relay.py:265-270 | recipient and window are taken over, the packet limit is put between 1024 and 32768 |
| `SshChannels.SshChannel.AddWindow` | reverssh/relay.py:272-275 | the window grows up to 2^32-1, and what is cut off is accounted for |
| `SshChannels.SshChannel.ReserveWindow` | reverssh/relay.py:277-289 | waiting, closing, the deadline and the chunk size, for any interleaving with other threads |
| `FlowControl.ReserveKeeps` | reverssh/relay.py:277-289 | a reservation takes the least of the size, the window and the packet limit, which is at least 1, and fails with nothing taken only when the channel is closed or the window is used up at the deadline |
| `SshChannels.SendOnChannel` | reverssh/relay.py:892-912 | the send loops emit one message per reserved chunk, in order, to the recipient; nothing without one |
| `FlowControl.SendingMeans` | reverssh/relay.py:892-912 | chunks have 1..packet limit bytes and concatenate to the data, or to a prefix exactly when the channel closes or the deadline passes; a deadline passes only when every granted byte has been used |
| `FlowControl.SendingCompletes` | reverssh/relay.py:277-289 | progress: one granting round for every byte is enough to send everything |
| `FlowControl.RunWithinGrants` | reverssh/relay.py:265-294 | over all runs, bytes sent plus the window left plus what the maximum cut off equal the bytes granted, so no more is sent than the initial window plus all adjustments |
| `ChannelMessages.DataMessagesAt` | reverssh/relay.py:899-911 | one DATA or EXTENDED_DATA message for every chunk |
| `CreditLedger.StepKeeps` | reverssh/relay.py:726-752 | every step of relay and operator, closing included, keeps the balance of every listed channel and the state of every channel number |
| `CreditLedger.CreditIsConserved` | reverssh/relay.py:888-890 | in the ledger of one operator: credit plus data underway plus adjustments underway is 2^31-1 for every listed channel in every reachable state, numbers used again included; RelayCredit.CreditAtTheRouter carries it over to the router |
| `CreditLedger.NumbersComeFree` | reverssh/relay.py:746-752 | what is underway to a number is for the channel that has it now, nothing follows a CLOSE, and once nothing is underway no number is in use whose CLOSE was sent (section 5.3 of RFC 4254) |
| `CreditLedger.NumberUsedAgain` | reverssh/relay.py:746-752 | a run in which a number belongs to a second channel after CLOSE has gone both ways |
| `RelayTranscript.EveryByteIsGranted` | reverssh/relay.py:726-740 | over all runs of the router, for every connection and number: the amounts of the WINDOW_ADJUST messages to the number are, one by one and in order, the sizes of the data and extended data that came in for the listed channel with that number; nothing else grants anything |
| `RelayCredit.ReceiveLeads` | reverssh/relay.py:726-752 | what the router does with data and with a CLOSE of the operator is the step of the relay in the ledger |
| `RelayCredit.CreditAtTheRouter` | reverssh/relay.py:726-752 | in every run of an operator and the router together: for every listed channel with a number, what the operator may still send, what it has sent and is not handled, and what the router has granted again and is not received, is 2^31-1; so the operator never overruns the window, and has all of it back once nothing is underway |
| `RelayRouting.HandleKeeps` | reverssh/relay.py:165-349 | every message, wake-up and TCP event keeps the routing invariant |
| `RelayRouting.ShrunkKeeps` | reverssh/relay.py:327-352 | closing and delisting in any combination that forgets closed channels keeps it |
| `RelayRouting.RoutingIsConsistent` | reverssh/relay.py:798-838 | in every reachable state dictionary keys are the ids of the channels under them, no two channels share an id, and a relayed channel listed for an operator is stored for the client exactly unless it is marked closed; RelayEarlyClose says by events when that is |
| `RelayEarlyClose.UnstoredExactly` | reverssh/relay.py:345-349 | in every reachable state, a relayed channel that a connection lists is missing from the dictionary of the client if and only if CHANNEL_CLOSE for its id arrived from the client while the connection was opening it |
| `RelayWire.LabelsMatchTheWire` | reverssh/relay.py:318-352 | every frame to the client carries the id, and every message to an operator the connection and the number, of the channel it is made for |
| `RelayWire.CloseIsFinalForClient` | reverssh/relay.py:746-752 | over all runs, no frame with a channel id follows a CHANNEL_CLOSE with that id |
| `RelayNumbers.CloseIsFinalForOperator` | reverssh/relay.py:345-349 | over all runs in which every message is handled to its end, when an operator gives a number once, nothing addressed to it follows a CLOSE of a relayed channel (section 5.3 of RFC 4254) but CHANNEL_FAILURE and OPEN_FAILURE that are sent for no channel |
| `RelayNumbers.FailureBehindClose` | reverssh/relay.py:840-849 | for a number given once, of a channel of either kind: CHANNEL_FAILURE follows a CLOSE to it if and only if a request that wants a reply comes in behind it for an unlisted id of the relay that equals the number |
| `RelayNumbers.FailureAfterClose` | reverssh/relay.py:840-849 | it happens: both sides number from 0, the client closes, and a request crosses the CLOSE |
| `RelayNumbers.NumberHasOneChannel` | reverssh/relay.py:826-838 | over all runs, when an operator gives a number once, all messages addressed to it, CHANNEL_FAILURE and OPEN_FAILURE apart, are for one channel |
| `RelayWire.DataReachesItsId` | reverssh/relay.py:726-740 | over all runs and for every id, the data in the frames with that id is exactly what operators sent to the channel with that id, in order |
| `RelayTranscript.FramesAreDue` | reverssh/relay.py:318-343 | over all runs and for every id, the frames with it are what the events call for, one by one and in order: the open, and data, EOF, requests and CLOSE of the operator for the channel with that id while it is listed |
| `RelayTranscript.MessagesAreDue` | reverssh/relay.py:215-252 | over all runs and for every connection and number, the messages to it are what the events call for, one by one and in order: confirmation or refusal of an open, adjustments, answers to requests, EOF and CLOSE, and the data, status, EOF and CLOSE of the other end |
| `RelayTranscript.SocketsGetTheirData` | reverssh/relay.py:385-386 | over all runs, what is written to a forwarded TCP connection is the data that came in for its listed channel, in order |
| `RelayTranscript.OpensAreDue` | reverssh/relay.py:438-460 | over all runs, the opens of forwarded channels are one for each accepted TCP connection, with its local id |
| `RelayChanges.ListingChanges` | reverssh/relay.py:746-838 | one step, whatever happens: a channel is listed exactly when its open is granted or its TCP connection accepted, and leaves exactly when either side closes it, its open is refused, or its TCP connection ends |
| `RelayChanges.StoringChanges` | reverssh/relay.py:165-352 | one step: an id is stored for the client from the open on, until either side closes the channel or its open is refused |
| `RelayChanges.ChannelChanges` | reverssh/relay.py:165-383 | one step: where the number of a channel comes from, when it is marked closed, and how the thread of a forwarded channel goes on |
| `RelayChanges.NewChannels` | reverssh/relay.py:165-173 | one step: a channel is new exactly with an open of the operator or an accepted TCP connection, under the next ids |
| `RelayTraces.CloseIsFinal` | reverssh/relay.py:746-752 | the same by channel object, whose ids RelayWire.LabelsMatchTheWire puts on the wire, for every relayed channel and both sides, also when a number is given again |
| `RelayTraces.DataStaysOnItsChannel` | reverssh/relay.py:726-740 | over all runs and for every channel object, the data leaving on either side for it is exactly the data that came in for it, in order |
| `RelayNumbers.DataReachesItsNumber` | reverssh/relay.py:221-230 | over all runs and for every connection and number, the data in the messages to it is exactly what came in from the other end of the channel that has the number, in order |
| `RelayTraces.RemoteIdsAreFresh` | reverssh/relay.py:165-173 | the ids of the channels opened at the client over a run are 1, 2, 3, ... in this order |
| `RelayTraces.AnswersReachTheirOpener` | reverssh/relay.py:215-220 | an OPEN_CONFIRM reaches the one connection that is opening that id; late and repeated ones change nothing |
| `RelayTraces.ClosedBeforeConfirmed` | reverssh/relay.py:345-349 | it happens: a client that closes before it confirms leaves a listed channel that is not stored, and the plain form of the routing invariant fails |
| `RelayThreads.CloseIsFinalForClient` | reverssh/relay.py:746-752 | line by line and under every schedule of both threads, no frame for a channel follows its CHANNEL_CLOSE to the client |
| `RelayThreads.BehindClose` | reverssh/relay.py:248-252 | line by line and under every schedule, behind a CLOSE to the operator something of the channel can follow, or another CLOSE, if and only if one of the two threads holds the channel and has it still to send; a reader of frames that raises closes what it then finds stored (lines 148-149, 279-286) |
| `RelayThreads.FinalWithoutOverlap` | reverssh/relay.py:345-349 | so nothing of a relayed channel follows its CLOSE when the thread that sends it finds the other one idle; CHANNEL_FAILURE for a stray request is counted by FailuresAreAnswers |
| `RelayThreads.BothClose` | reverssh/relay.py:345-349 | it happens: both sides close at the same time, and the operator is sent CLOSE twice |
| `RelayThreads.RaisedCloses` | reverssh/relay.py:277-288 | it happens: the operator closes while the reader of frames waits for the window, the reader raises, finds the channel still stored, and sends CLOSE again |
| `RelayThreads.FailuresAreAnswers` | reverssh/relay.py:840-849 | line by line and under every schedule, a request that wants a reply, for an unlisted id equal to the number of the channel, is answered by one CHANNEL_FAILURE to that number, and nothing else sends one, behind a CLOSE as before it |
| `RelayForwarded.ForwardedCloses` | reverssh/relay.py:381-383 | over a run in which every message is handled to its end, a forwarded TCP channel sends at most two CLOSEs, and two exactly when the operator's CLOSE reaches it, listed and with a recipient, and its TCP connection ends later; one when only one of these happens |
| `RelayForwarded.BehindAClose` | reverssh/relay.py:381-383 | by channel object: something is sent for a forwarded channel behind its CLOSE if and only if they happen in this order, and then another CLOSE is |
| `RelayNumbers.ForwardedBehindClose` | reverssh/relay.py:381-383 | by number, when the operator gives it once: something other than CHANNEL_FAILURE and OPEN_FAILURE follows a CLOSE to it under the same condition |
| `RelayForwarded.ForwardedClosesTwice` | reverssh/relay.py:372-383 | it happens: a run with both |
| `RelayServer.Relay.OpenRemoteChannel` | reverssh/relay.py:165-173 | fresh local and remote ids, registration for the client, and the wait |
| `RelayServer.Relay.FinishChannelOpen` | reverssh/relay.py:826-838 | the rest of the open exchange is one step of the router |
| `RelayServer.Relay.HandleClose` | reverssh/relay.py:746-752 | an operator CLOSE is forwarded and answered, and the channel leaves both dictionaries |
| `RelayServer.Relay.HandleRemoteClose` | reverssh/relay.py:345-349 | a client CLOSE is forwarded once, and the channel leaves both dictionaries |
| `RelayServer.Relay.EndForwarded` | reverssh/relay.py:381-383 | EOF and CLOSE at the end of the TCP connection |
| `RelayServer.Relay.HandleRemoteData` | reverssh/relay.py:892-912 | the window of the channel cuts the data into chunks, under any schedule of other threads, and they go out in order on the channel stored under that id |
| `RelayTeardown.ClosingsTearDown` | reverssh/relay.py:148-149 | closing stored channels one after the other marks closed, delists and forgets exactly these, changes nothing else, and sends one CLOSE for each that has a number |
| `RelayTeardown.OneDeliveryClosesAll` | reverssh/relay.py:248-252 | one delivery of data leaves the client without any channel if and only if the data cannot all be sent, because its own channel is closed or its window stays empty until the deadline: then the channels of every operator of that client are closed and delisted; otherwise nothing changes but what was sent |
| `RelayTeardown.DoneExactly` | reverssh/relay.py:892-900 | the send loop raises exactly when not all of the data went out, and then a prefix did |
| `RelayTeardown.TeardownForgets` | reverssh/relay.py:148-149 | whatever threads of operators do between the lines of the teardown, no channel that it found is stored behind it |
| `RelayServer.Relay.CloseClient` | reverssh/relay.py:135-149 | the loop over the stored channels ends with an empty dictionary, those channels closed and delisted, and each operator told |
| `RelayServer.Relay.ReceiveData` | reverssh/relay.py:221-225 | a turn of the reader with data goes on exactly when all of it can be sent, and closes all channels of the client otherwise |
| `RelayServer.Relay.Serve` | reverssh/relay.py:205-238 | whatever sequence of messages, wake-ups and TCP events is handled, the fields and the log of what was sent are those of a run of the router |
| `RelayServer.Relay.LogIsSafe` | reverssh/relay.py:707-758 | everything a Relay object has sent, at any time, when its handlers run to their ends: CLOSE is final by id, and by number but for CHANNEL_FAILURE and OPEN_FAILURE; CHANNEL_FAILURE follows a CLOSE exactly behind a stray request; data is on its channel, by id and by number; and a forwarded channel speaks behind a CLOSE exactly in the one order |
| `RelayServer.Relay.LogIsDue` | reverssh/relay.py:707-758 | everything a Relay object has sent, for every id and number, is what the events for their channel call for, one by one and in order, WINDOW_ADJUST amounts included |
| `AuthGate.SignedInjective` | reverssh/relay.py:692-701 | the signed message determines session, user name, service, algorithm and key |
| `OperatorLogin.KeyBlobInverse` | reverssh/keys.py:10-21 | a key blob parses to a key exactly when it is the blob of that key |
| `OperatorLogin.SignedRequestIsValid` | reverssh/relay.py:679-702 | a request signed with the seed of its key is valid under Ed25519, for every session and user |
| `OperatorLogin.RequestInverse` | reverssh/relay.py:637-659 | the fields of a signed request are read back, and nothing else is read as that request |
| `OperatorLogin.OperatorIsPassedOn` | reverssh/relay.py:637-671 | what an operator with a seed sends for a registered client is passed on to that client with its key |
| `AuthHistory.NextKeeps` | reverssh/relay.py:623-677 | every step of the gate keeps its history invariant |
| `AuthHistory.SuccessIsApproved` | reverssh/relay.py:623-677 | over all runs with any interleaving, USERAUTH_SUCCESS has before it: a client registered under the user name, a valid signature over this session, a request to that client under an id used once, and its approval of this id |
| `AuthHistory.OpenIsApproved` | reverssh/relay.py:798-826 | the same for every OPEN_CHANNEL |
| `AuthHistory.AnswersReachTheirAsker` | reverssh/relay.py:209-214 | an answer moves at most the connection that waits for this id of this client; late and repeated answers move none |
| `AuthHistory.IgnorableIsIgnored` | reverssh/relay.py:631-642 | an ignorable message changes nothing exactly when the connection is not authenticating; then it ends the connection |
| `AuthHistory.StrictClientsKeepOut` | reverssh/relay.py:671-675 | with any client that approves only allowed keys, nobody with another key is let in |
| `AuthReplies.ReadingIs` | reverssh/relay.py:637-664 | byte by byte: a request is taken for a probe with a key, for a signed request, or for an unsuitable one if and only if it has these fields in this order, and the loop raises exactly for everything else |
| `AuthReplies.ValidIs` | reverssh/relay.py:679-702 | a signature is valid if and only if key and signature are of ssh-ed25519, the key has 32 bytes, and it verifies over session, 50, user, service, publickey, 1, algorithm and key, written out |
| `AuthReplies.ProbeIsAnswered` | reverssh/relay.py:658-660 | a request without a signature is answered by PK_OK with its key, and nothing else changes: the connection goes on asking |
| `AuthReplies.ProbeIs` | reverssh/relay.py:641-660 | such a request, written out |
| `AuthReplies.StepWrites` | reverssh/relay.py:623-677 | one step: what the gate replies, asks a client, notes and opens is exactly what the event calls for, or nothing |
| `AuthReplies.StepGoesOn` | reverssh/relay.py:623-677 | one step: where every connection goes on behind that |
| `AuthReplies.EntriesExactly` | reverssh/relay.py:623-677 | over all runs, an entry of the history is where it is if and only if the step there called for it: PK_OK answers exactly the probes; FAILURE exactly an unsuitable request, an invalid signature, a name without a live client and a wait that ends without approval; the connection is ended exactly where the loops raise; requests to clients, success and opens likewise |
| `AuthServer.Server.Add` | reverssh/relay.py:95-101 | an identifier is never taken over from a client that is alive |
| `AuthServer.Server.Remove` | reverssh/relay.py:103-106 | only the client itself is removed: a successor under the same identifier stays |
| `AuthServer.Server.Get` | reverssh/relay.py:108-113 | the client registered under an identifier while it is alive |
| `AuthServer.Server.HandleUserAuth` | reverssh/relay.py:637-677 | one message is one step of the gate, in the order of the loop and reading no more than it needs; AuthReplies says what each request is answered |
| `AuthServer.Server.Serve` | reverssh/relay.py:623-677 | whatever sequence of registrations, messages, answers and timeouts is handled, the fields are those of a run of the gate |
| `AuthServer.Server.TraceIsSafe` | reverssh/relay.py:623-677 | whatever happened to a Server object, it let nobody in and opened no channel without the approval of the client for a validly signed request |
| `AuthServer.Server.TraceIsCalledFor` | reverssh/relay.py:623-677 | the trace of a Server object has exactly the entries that its steps called for, in order |
| `ReverseClient.OperatorApproval.Approve` | reverssh/client.py:115-138 | an allowlist decides alone; known operators are approved; without a terminal others are rejected; at the prompt the first line that is one of the listed words decides, and only there can trust be asked for |
| `ReverseClient.OperatorApproval.Persist` | reverssh/client.py:140-143 | nothing is remembered under an allowlist |
| `ReverseClient.Chunks` | reverssh/client.py:212-221 | chunks of 32768 bytes and a smaller last one, concatenating to the data |
| `ReverseClient.ReverseClientConnection.HandleAuthRequest` | reverssh/client.py:172-177 | one answer under the id of the request with exactly this decision, and the operator is remembered exactly when it says so; no answer when the lines at the prompt end without one |
| `ReverseClient.ReverseClientConnection.HandleOpenChannel` | reverssh/client.py:233-248 | exactly one confirmation; the channel is listed exactly when it is positive, an id that is in use going to the new channel |
| `ReverseClient.ReverseClientConnection.SendChannelData` | reverssh/client.py:212-221 | an answer of the SFTP server goes out in chunks of the maximum size and a smaller last one, closed channel or not |
| `ReverseClient.ReverseClientConnection.RunThread` | reverssh/client.py:461-496 | every line of the readers, of _finish_with_status and of on_close is one step, the look at the flag apart from what follows it |
| `ReverseClient.ReverseClientConnection.Serve` | reverssh/client.py:168-206 | whatever sequence of frames and turns of threads is run, the fields and the log of what was sent are those of a run of the state machine |
| `ReverseClient.ReverseClientConnection.LogIsSafe` | reverssh/client.py:168-231 | everything a connection object has sent, at any time: ids, data, and what can follow a CLOSE |
| `ReverseClient.ReverseClientConnection.LogIsDue` | reverssh/client.py:168-231 | everything a connection object has sent is what its steps called for, frame by frame and in order |
| `ClientChannels.HandleKeeps` | reverssh/client.py:168-248 | every frame of the relay and every turn of a thread keeps the dictionary and the threads consistent; a CLOSE is sent only for a channel that is marked closed |
| `ClientTraces.LabelsMatchTheWire` | reverssh/client.py:212-231 | every frame carries the id of the channel it is sent for |
| `ClientTraces.DataComesFromItsThreads` | reverssh/client.py:461-480 | over all runs, the data that leaves for a channel is what its threads have read, in order, whether or not it has been closed |
| `ClientTraces.WhatCanFollow` | reverssh/client.py:472-496 | for a channel that is marked closed, some continuation sends something for it if and only if one of its threads is in flight - it has looked at the flag and not sent yet, or does not look - or a frame can still reach the session through the dictionary |
| `ClientTraces.BehindClose` | reverssh/client.py:472-496 | the same behind every CLOSE of every run |
| `ClientTraces.SecondClose` | reverssh/client.py:348-369 | another CLOSE can follow if and only if another thread has tested the flag before it was set |
| `ClientTraces.DataBehindClose` | reverssh/client.py:472-496 | it happens: a shell exits while its child keeps the output open, CLOSE goes out, and what the child prints follows it |
| `ClientTranscript.FramesExactly` | reverssh/client.py:168-248 | over all runs, frame i is this one if and only if the step behind i frames called for it: a confirmation answers exactly an OPEN_CHANNEL and is positive exactly for a session or a connected TCP channel; data is what a reader has read, status, EOF and CLOSE what a thread had to send, under the id of its channel |
| `ClientTranscript.FrameStarts` | reverssh/client.py:172-206 | the threads that each frame of the relay starts, and none else |
| `ClientTranscript.ListedExactly` | reverssh/client.py:202-248 | one step: an id leads to the newest channel opened under it, until the relay closes it or its own CLOSE has gone out |
| `ClientTranscript.ProcessExitIsTold` | reverssh/client.py:482-496 | a process that exits while its channel is open: its status modulo 2^32, EOF and CLOSE, and the channel is closed and gone |
| `ClientTranscript.TcpEndIsTold` | reverssh/client.py:540-553 | a TCP connection that ends while its channel is open: EOF and CLOSE, and the channel is closed and gone |
| `ClientTranscript.FailingRequestEnds` | reverssh/client.py:309-335 | a request that fails, an unknown subsystem included, ends the session with status 1, EOF and CLOSE |
| `ClientTranscript.SftpEndEnds` | reverssh/client.py:337-341 | EOF of the relay for a session with an SFTP server ends it with status 0, EOF and CLOSE |
| `ClientTranscript.CloseIsNotAnswered` | reverssh/client.py:200-204 | CLOSE of the relay takes the channel out of the dictionary and closes it, and nothing is sent |
| `StrictMode.ClientIsStrict` | reverssh/client.py:115-121 | relay and client joined by the frames between them: over all runs, every answer of a client in strict mode is to a request that was passed on to it and says whether its key is on the allowlist |
| `StrictMode.StrictModeHolds` | reverssh/client.py:115-121 | over all these runs, an operator is let in to that client, or gets a channel of it, only behind a request of its own with a key of the allowlist and a valid signature over its session |
| `StrictAnswers.LetInExactly` | reverssh/client.py:115-121 | over all these runs, whenever the wait of an operator for that client ends, it is let in if and only if the wait did not run out and its key is on the allowlist |
| `StrictAnswers.AllowedIsLetIn` | reverssh/client.py:115-121 | from any reachable state, whatever else is in the queues: once the client has decided what is on the way to it and its answers have arrived, an operator that waits for it is let in exactly if its key is on the allowlist; no request and no answer is lost |
| `Sftp.SFTPServer.Feed` | reverssh/sftp.py:109-117 | every complete packet of buffer and data is handled in order, and the incomplete rest stays in the buffer |
| `Sftp.SFTPServer.HandlePacket` | reverssh/sftp.py:127-183 | the dispatch with its error replies; raises exactly for packets under 5 bytes |
| `Sftp.SFTPServer.Readdir` | reverssh/sftp.py:220-241 | the position moves, and then the names that still exist are described; one that cannot be loses the whole batch |
| `Sftp.SFTPServer.NewHandle` | reverssh/sftp.py:188-192 | handles are h1, h2, ... |
| `Sftp.SFTPServer.OnHandle` | reverssh/sftp.py:142-158 | requests on a handle: unknown handles and directories fail, and CLOSE removes the handle and succeeds unless the file it belongs to fails to close |
| `Sftp.SFTPServer.OnPath` | reverssh/sftp.py:136-173 | requests on a path: a handle is issued only on success |
| `Sftp.SFTPServer.ReadRequest` | reverssh/sftp.py:136-172 | the fields of each request are read in order |
| `Sftp.DecimalInjective` | reverssh/sftp.py:189 | different numbers have different decimal digits |
| `SftpRuns.ChunkingDoesNotMatter` | reverssh/sftp.py:109-117 | however a stream of packets of at least 5 bytes is cut, the handled packets and the leftover are those of a single feed |
| `SftpRuns.RepliesMatchRequests` | reverssh/sftp.py:127-186 | over every run exactly one reply for every packet, in order, each with the number of its request |
| `SftpRuns.HandlesAreCounted` | reverssh/sftp.py:188-192 | the handles issued over a run are consecutive |
| `SftpRuns.HandlesAreFresh` | reverssh/sftp.py:188-197 | no handle is issued twice, closed or not |
| `SftpRuns.ListingIsComplete` | reverssh/sftp.py:220-231 | while a directory stays open, the batches of its READDIR requests are its entries one after the other, whatever else is requested in between |
| `SftpRuns.ReaddirReplies` | reverssh/sftp.py:220-241 | end of listing is answered exactly when every entry has been visited, names exactly when every name of the batch that still exists can be described, and a failure otherwise |
| `SftpRuns.ReadingToTheEnd` | reverssh/sftp.py:220-231 | n READDIR requests move the position by 64 n entries, or to the end, whatever else is requested in between |
| `SftpRuns.ToldIsVisited` | reverssh/sftp.py:228-241 | the names in the replies are the entries visited exactly when every one still existed, and could be described, when its turn came |
| `SftpRuns.WholeListing` | reverssh/sftp.py:211-241 | from OPENDIR to the end: a READDIR is told the end exactly when every entry has been visited, each once and in order, which is after one request for every 64 of them; and what was told is all of them exactly when none was lost |
| `SftpDispatch.PacketCutIs` | reverssh/sftp.py:109-117 | a packet is complete if and only if it stands there behind its length in four bytes |
| `SftpDispatch.DispatchIs` | reverssh/sftp.py:127-277 | for every packet with a kind, a number and fields, byte by byte: the server turns into exactly the state, with exactly the reply, that is written out by kind: versions, handles, data, attributes and names, and the status codes 0, 1, 2, 3, 4 and 8, malformed and unknown requests included |
| `SftpDispatch.EveryPacketHasItsTurn` | reverssh/sftp.py:127-277 | over every run, each packet does that in the state behind the packets before it |

## Left out

- Curve25519.Agreement: not proved that the x-coordinates of the curve form such a family of multiples; the group law of the Montgomery curve is a hypothesis.
- Ed25519Constants.Ed25519Completeness: primality of P, associativity and the order of B are hypotheses.
- Security of the cryptography (unforgeability, timing) is not a subject of the model.
- SshChannels.SshChannel.SetRecipient: chunks may exceed the peer's advertised packet maximum when that is below 1024, because the program uses 1024 then; the ledger assumes that it runs once per channel.
- RelayNumbers.DataReachesItsNumber: counts data that arrives while the channel has a recipient; frames that arrive between the confirmation and set_recipient are dropped by the program. The chunks of one delivery count as sent in one step, which a closing channel or a passed deadline cuts short.
- RelayNumbers.CloseIsFinalForOperator: is about relayed channels; RelayNumbers.ForwardedBehindClose says what holds for forwarded TCP channels, and RelayThreads for handlers that overlap. A number that is given again, after CLOSE has gone both ways, belongs to another channel.
- RelayServer.Relay.HandleRemoteData: the window object of the channel is handed over by the caller, and sending on the socket does not fail.
- RelayTeardown.OneDeliveryClosesAll: is about delivery and teardown without other threads in between, but for those that adjust or close the window; TeardownForgets says what is kept of it with them.
- RelayThreads.BehindClose: is about one channel behind its open exchange, with sends that do not fail; WINDOW_ADJUST from the operator is left out, so the wait for the window may end at any time.
- RelayCredit.CreditAtTheRouter: the operator's open and the answer to it travel at once, and that operator confirms no forwarded channel; data and CLOSE from it, and everything the router sends, wait in queues.
- CreditLedger.CreditIsConserved: the open exchange is one step of both sides; RelayCredit ties the other steps to the router.
- AuthReplies.EntriesExactly: replies are values with their fields, not the bytes of their packets; a session identifier, user or key of 2^32 bytes or more, which no packet can hold, counts as an invalid signature.
- ClientTraces.BehindClose: an exception in on_data, which ends the connection to the relay, and the closing of all channels behind it are not steps; the join with its two seconds is a wait of any length.
- ClientTraces.WhatCanFollow: the direction from "in flight" to a continuation is for a channel whose id no other channel has; the relay gives every id once.
- StrictMode.StrictModeHolds: frames between relay and client arrive unchanged and in order, which FrameSocket proves of the layers below.
- SftpRuns.WholeListing: is about the entries found when the directory was opened; a NAME reply counts also the names that are gone by then.
- SftpRuns.ChunkingDoesNotMatter: packets under 5 bytes, for which the program raises, are excluded.
- PrivateProtocol.OpeningInverse: JSON itself is a parameter.
- Cleanup after an operator has disconnected; the listeners and registrations that end with a client.
- Version exchange, KEXINIT negotiation, global requests, listeners for forwarded ports and the order of messages in the key exchange.
- The HTTP upgrade of WebSocket connections, TLS, real sockets, threads and timeouts.
- Processes, terminals, signals, the file system, path normalization, SFTP attributes and the texts of error messages.
- The known operators file, environment variables, argument parsing, logging and the bootstrap script.
