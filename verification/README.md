# fsip2 in Dafny

A model of the fsip2 gateway, which lets library kiosks that speak SIP2 (3M Standard Interchange
Protocol, version 2.00) work against a FOLIO back end, and proofs about it. `dafny verify
dfyconfig.toml` checks everything.

| file | what it models |
|---|---|
| `Session.dfy`, `Lifecycle.dfy`, `Handlers.dfy` | a connection's tokens and Keycloak sessions: the session object, all interleavings of renewals and a 93, the handlers themselves |
| `Auth.dfy`, `Logout.dfy` | what FOLIO's answers to login and refresh mean, and the traffic of a logout |
| `PatronCache.dfy` | the patron a session remembers between messages |
| `Framing.dfy`, `Parser.dfy`, `Fields.dfy`, `Checksum.dfy`, `Builder.dfy`, `Sanitize.dfy` | the wire format, read and written |
| `Calendar.dfy`, `Duration.dfy`, `Renewal.dfy` | rolling renewal of patron accounts |
| `Tenants.dfy` | loading, reloading and routing of tenant configurations |
| `Fees.dfy`, `Cql.dfy` | fee payment, and quoting of device values in queries |
| `Text.dfy`, `Outcome.dfy` | the string operations used, options and results |

FOLIO and Keycloak are environments that answer each request with any outcome; time is a number
that only grows (nanoseconds, 0 for an unknown expiration). A charset encoder is any partial
function from strings to bytes, a subnet test any predicate. A string is a sequence of characters,
one for each byte on the wire and one for each rune in a sanitized value; the two agree for ASCII.

How the token model is built: `Session` has the source's fields and methods, each equated with a
function of its former value. `Lifecycle` runs threads of `renewToken` and of the 93 handler over
that value, one step for each reading of the token, lock operation, request or answer, with any number of callers,
and keeps the books of an observer: an identity for every Keycloak session (fresh at a login, kept
by a refresh, counted when the client has received a usable pair), where it is now, and a trace of
requests. `Handlers` has the same operations as imperative methods on a `Session` and shows that a
thread left alone does exactly what the method computes.

## What the proofs turned up

The model follows the code; these are the places where that is not what a reader would expect.

- A 93 without CN or CO is answered after the tenant may have changed
  (internal/server/connection.go:268-273 before internal/handlers/login.go:36-43). It leaves the
  previous tenant's tokens and cached patron in place: `IncompleteLoginExposesIff` and
  `IncompleteLoginStaleIff` say exactly when that matters.
- A renewal that refreshes while the stored tokens are another tenant's sends their refresh token to
  the present tenant's gateway (`RefreshGoesHomeIff`).
- `Parse` panics on a message with a valid checksum whose first "AY" is at index 0 or 1
  (`ParsePanicsIff`).
- Header fields are read from the raw message but the coded fields start after a header measured
  without the error-detection fields (`HeaderViewsAgreeIff`); an 11 or 29 without its nb due date is
  read correctly only when its coded part is shorter than 18 characters (`ShortHeaderReadIff`).
- The comment at internal/server/connection.go:220-222 says that a payload of the maximum size is
  accepted; that is so only for one-byte delimiters (`AcceptedIff`).
- The checksum is computed over another text than the one sent when code plus content ends with the
  field delimiter and the content alone does not (`SummedIsSentIff`).
- A field delimiter can appear in a sanitized value exactly when it has a space and no control
  character (`SafeDelimiterIff`), and half of a longer one can be cut off a value's end
  (`DoubleBarLosesTail`; exactly when lists are read back is `FieldListReadsIff`).
- The same number of months added to two dates can reverse their order (`BaseOrderKeptIff`), by two
  days at most (`BaseOrderAlmostKept`).
- extendFor shorter than renewWithin, even only by month lengths, moves expiration dates backwards
  (`KeepsUpIff`, `ThirtyDaysFallBehind`); configuration validation does not compare the two.
- A source that fails beside one that loads loses its tenants (`SurvivesIff`); only a reload that
  gathers nothing is discarded.
- A 23 writes the token back without the renewal lock; only the one-by-one handling of a
  connection's messages keeps that harmless (`WriteBackCoherentIff`).

## Model

| member | source | states |
|---|---|---|
| `Lifecycle.SessionsConserved` | internal/handlers/base.go:157-187 | Over every run of logins, renewals, tenant changes, 23s, 35s and close, with any number of callers interleaved, each Keycloak session opened is in exactly one place: held, with exactly one logout job, or given up; after close none is held and no token is left. |
| `Lifecycle.PairsCoherent` | internal/types/session.go:109-163 | In every reachable state the stored tokens, and those of every logout job, were delivered together by one answer and are recorded with the gateway and tenant that gave it; a session is given up without logout only after a 4xx to its refresh or without a usable refresh token. |
| `Lifecycle.NoForeignTokensAfterLogin` | internal/handlers/login.go:60-129 | From the answer to any 93 that passed field validation (short-circuited, accepted or refused) until the next 93, no token of another tenant is stored, whatever renewals run meanwhile. |
| `Lifecycle.IncompleteLoginExposesIff` | internal/server/connection.go:268-273 | In every reachable state, also after earlier such 93s: a 93 without CN or CO, answered after the tenant may have changed, leaves tokens of another tenant exactly when tokens are stored that another gateway or gateway tenant granted than the one the session ends with. |
| `Lifecycle.RenewalsNeverOverlap` | internal/types/session.go:202-210 | In every reachable state at most one thread is between taking and leaving the renewal lock. |
| `Lifecycle.QuietUntilExpiry` | internal/handlers/base.go:157-163 | With only token callers about, while the stored token outlives the 90 second buffer no caller sends anything, and every caller that had not already read an older token gets the stored one. |
| `Lifecycle.OneRenewalServesAll` | internal/handlers/base.go:157-163 | With no 93 about, from the step that ends a renewal with a token, and as long as that token outlives the buffer, nobody sends anything: whoever waited for the lock or comes later gets the token of that one renewal. |
| `Lifecycle.OnlyLoginsAskFolio` | internal/handlers/base.go:157-163 | With 93s beginning, pending and ending among the callers, as long as no renewal has started asking and the stored token stays fresh, the only requests are the logins of 93s and no renewal starts asking. |
| `Lifecycle.FailedRenewal` | internal/handlers/base.go:157-181 | However others interleave, from getting the lock to reporting failure the stored pair is unchanged, nobody else has sent anything, and the renewal has sent at most one refresh followed by at most three logins, all refused. |
| `Lifecycle.RenewedTokenIsStored` | internal/handlers/base.go:161-175 | A caller that ends a renewal with a token returns the token that is stored. |
| `Lifecycle.ShortCircuitEarned` | internal/handlers/login.go:60-74 | Over every run a 93 is answered without asking FOLIO only for credentials that FOLIO accepted earlier on this connection, with a pair of the present tenant that outlives the buffer. |
| `Lifecycle.WriteBackCoherentIff` | internal/handlers/patron_status.go:181-188 | Putting a token and its end back, as a 23 does without the lock, keeps the pair coherent exactly when they are the stored ones. |
| `Lifecycle.RunsKeep` | internal/server/connection.go:253-330 | The bookkeeping invariant (coherence, conservation, lock discipline, what each thread knows) holds along every run. |
| `Lifecycle.StepKeeps` | internal/server/connection.go:253-330 | Every enabled step of anybody keeps the invariant. |
| `Lifecycle.MoveKeeps` | internal/handlers/base.go:86-181 | Every step of a thread keeps the books and its own facts, and outside the lock leaves pair and trace alone. |
| `Lifecycle.RefreshGoesHomeIff` | internal/handlers/base.go:191-202 | The request a refresh makes carries the stored refresh token, and goes to the gateway and tenant that granted it exactly when the session holds no tokens of another tenant. |
| `Lifecycle.RefreshAnsweredKeeps` | internal/handlers/base.go:191-202 | Whatever a refresh is answered, the pair stays coherent, every Keycloak session is in one place (a rotated pair stays in its own) and the thread knows what it has sent. |
| `Lifecycle.ReloginAnsweredKeeps` | internal/handlers/base.go:286-312 | Whatever a re-login is answered, the same: on a grant the old session goes to a job or is given up for a reason that justifies it, on a refusal the pair is the one the renewal found. |
| `Lifecycle.LoginAnsweredKeeps` | internal/handlers/login.go:91-129 | Whatever a 93 is answered, the books hold: the old pair is swapped and handed off, taken and cleared, or left. |
| `Lifecycle.LoginBegunKeeps` | internal/handlers/login.go:55-85 | The first step of a 93 keeps the books, sends nothing and leaves the pair. |
| `Lifecycle.CloseKeeps` | internal/server/connection.go:122-131 | Closing keeps the invariant: nothing is held afterwards and every session is still in exactly one place. |
| `Lifecycle.OneJobEach` | internal/handlers/base.go:56-61 | No two logout jobs end the same Keycloak session. |
| `Lifecycle.HeldHasNoJob` | internal/types/session.go:118-139 | A held session has no logout job. |
| `Lifecycle.BusyStep` | internal/handlers/base.go:158-159 | Whatever step anybody takes, a renewal under way is still renewing the pair it found, or its own thread has just ended it. |
| `Handlers.TryRelogin` | internal/handlers/base.go:255-313 | The retry loop returns the token, the requests and the replaced pair that the specification assigns to credentials, answers and cancellations. |
| `Handlers.TryTokenRefresh` | internal/handlers/base.go:191-202 | One refresh to the present tenant; both tokens replaced on a grant, nothing changed otherwise. |
| `Handlers.RenewToken` | internal/handlers/base.go:157-181 | Session, token, requests and the pair handed to a logout are those of the specified renewal. |
| `Handlers.RenewSucceedsIff` | internal/handlers/base.go:157-181 | A renewal yields a token exactly when the stored one is still good, a usable refresh token is honoured, or one of three logins with stored credentials is; otherwise the session is untouched; at most four requests. |
| `Handlers.ReloginSucceedsIff` | internal/handlers/base.go:264-312 | Re-login succeeds exactly when some attempt is granted with no cancelled wait up to it. |
| `Handlers.NoTokenNoPair` | internal/handlers/base.go:264-312 | Without a token the session is unchanged and no pair was replaced; with one, the replaced pair is the old one and the token is stored. |
| `Handlers.HandleLogin` | internal/handlers/login.go:45-151 | The new session, the answer, the request sent and the pair handed off are those of the specified login. |
| `Handlers.Admit` | internal/handlers/login.go:118-128 | An accepted login swaps the pair, clears the cached patron and stores both credentials. |
| `Handlers.Refuse` | internal/handlers/login.go:93-101 | A refused login takes the pair and clears the session exactly when the tokens are of another tenant. |
| `Handlers.LogoutSession` | internal/handlers/session_logout.go:30-34 | The pair is taken out of the session and given to one logout; the session is left without tokens. |
| `Handlers.LogoutSessionOnce` | internal/types/session.go:129-132 | A second logout of a session sends nothing. |
| `Handlers.RenewalDriven` | internal/handlers/base.go:157-181 | A thread of the transition system left alone with the lock ends in the session, token, requests and job that renewToken computes. |
| `Handlers.LoginDriven` | internal/handlers/login.go:60-132 | A 93 of the transition system left alone ends in what the login handler computes. |
| `Handlers.JobsReachTheirIssuer` | internal/handlers/session_logout.go:36-72 | Over every run, whatever a logout job sends goes to the gateway and tenant that granted its pair, and a logout not preceded by a refresh carries both tokens of that grant. |
| `Logout.LogoutTokens` | internal/handlers/session_logout.go:46-126 | What is sent for a pair is the specified script, for every pair and every behaviour of server and clock. |
| `Logout.Attempt.RefreshPair` | internal/handlers/session_logout.go:77-94 | One refresh with the token in hand, none without one; both tokens are replaced together, or neither. |
| `Logout.Attempt.SendLogout` | internal/folio/auth.go:121-139 | A logout is sent only past the guards. |
| `Logout.LogoutProtocol` | internal/handlers/session_logout.go:36-109 | At most one refresh and two logouts, all to the issuer; every logout carries a non-blank access token and a compact-form refresh token from the pair or from the one refresh; a second logout only after a 401 and a granted refresh. |
| `Logout.SilentIff` | internal/handlers/session_logout.go:57-68 | Nothing is sent exactly for a blank or expired refresh token, no issuer, or a current pair the guards refuse; never for an empty pair. |
| `Logout.EventuallyLoggedOut` | internal/handlers/session_logout.go:96-102 | A pair whose access token has expired is logged out exactly when its refresh is granted and the new tokens pass the guards. |
| `Auth.ExtractTokens` | internal/folio/auth.go:198-221 | The first non-empty cookie of each name, or the name of the missing one. |
| `Auth.FirstValueIs` | internal/folio/auth.go:201-213 | The value taken is that of the first cookie of the name that holds one; none when all are empty. |
| `Auth.FillTokens` | internal/folio/auth.go:182-196 | Both tokens and a known access expiration, or the error. |
| `Auth.GrantedIff` | internal/folio/auth.go:69-109 | A login or refresh is granted exactly by a 2xx with both cookies and an access expiration, and then both tokens are non-empty; other statuses are HTTP errors. |
| `Auth.JwtShapedIff` | internal/folio/auth.go:141-160 | The shape test accepts exactly the compact forms: three non-empty parts, or five of which only the second may be empty, without white space. |
| `Auth.GuardPassedIff` | internal/folio/auth.go:121-130 | The logout guards pass exactly a compact-form refresh token next to an access token that is not blank. |
| `SessionModel.Session.constructor` | internal/types/session.go:60-70 | A new session has no tokens, credentials or patron. |
| `SessionModel.Session.SetAuthenticated` | internal/types/session.go:72-84 | The whole new state; refresh token, issuer and password stay. |
| `SessionModel.Session.SetAuthCredentials` | internal/types/session.go:86-92 | Only the password changes. |
| `SessionModel.Session.HasAuthCredentials` | internal/types/session.go:102-107 | Both user name and password are stored. |
| `SessionModel.Session.UpdateTokens` | internal/types/session.go:109-116 | The pair is replaced whole and issued by the present tenant. |
| `SessionModel.Session.SwapTokens` | internal/types/session.go:118-127 | Returns exactly the old pair and stores the new one. |
| `SessionModel.Session.TakeTokens` | internal/types/session.go:129-139 | Returns the pair and leaves it empty, everything else unchanged. |
| `SessionModel.Session.HasTokensFromOtherTenant` | internal/types/session.go:141-150 | True exactly for a stored pair whose issuer is not the present gateway and tenant. |
| `SessionModel.Session.HasValidRefreshToken` | internal/types/session.go:191-200 | A stored refresh token with a known end beyond the buffer. |
| `SessionModel.Session.IsTokenExpired` | internal/types/session.go:289-297 | An unknown end, or one not beyond now plus 90 seconds. |
| `SessionModel.Session.Clear` | internal/types/session.go:299-313 | Everything but tenant and location is reset. |
| `SessionModel.Session.ClearPatron` | internal/types/session.go:315-324 | Only the cached patron is forgotten. |
| `SessionModel.Session.SetPatronID` | internal/types/session.go:247-252 | Only the cached ID changes. |
| `SessionModel.Session.SetPatronBarcode` | internal/types/session.go:254-259 | Only the cached barcode changes. |
| `SessionModel.Session.SetLocationCode` | internal/types/session.go:219-224 | Only the location changes. |
| `SessionModel.Session.UpdateTenant` | internal/types/session.go:340-345 | Only the tenant changes, not the issuer of the pair. |
| `SessionModel.PairsConserved` | internal/types/session.go:109-182 | Over any sequence of stores, swaps, takes and tenant changes the pairs ever held are exactly those handed to a caller, those a refresh overwrote, and the one still held. |
| `SessionModel.SecondTakeEmpty` | internal/types/session.go:129-132 | What a take leaves is empty and of no other tenant, whatever the tenant becomes. |
| `PatronCache.NeverSomeoneElse` | internal/handlers/fee_paid.go:103-133 | Over every run of 93s and of 11, 23, 29, 35, 37 and 65 messages in which no 93 without CN or CO moves the session to another gateway or gateway tenant, every patron acted for, cached or looked up, is the one the present tenant has under the barcode in that message. |
| `PatronCache.MessageKeepsCache` | internal/handlers/renew.go:74-104 | Each message keeps the cache right and acts for its own barcode. |
| `PatronCache.ResolvePatron` | internal/handlers/checkout.go:78-104 | The cached ID is used exactly for the cached barcode; otherwise the answer of the lookup is used and cached. |
| `PatronCache.LoginKeepsCache` | internal/handlers/login.go:60-128 | A complete 93 keeps the cache right across a change of tenant. |
| `PatronCache.IncompleteLoginStaleIff` | internal/server/connection.go:268-273 | After a 93 without CN or CO that changed the tenant, whatever tokens the session holds and whether or not they must first be renewed, the next message for the cached barcode uses the cached ID exactly when it gets a token; right exactly when the new tenant has the same ID under that barcode. |
| `Parser.Parse` | internal/sip2/parser/parser.go:101-239 | The result, error or panic is that of the specification, for every text. |
| `Parser.ExtractFixedFields` | internal/sip2/parser/parser.go:259-370 | Each header field is the slice of the raw message at its position, present from the length the code asks for. |
| `Parser.MergeInto` | internal/sip2/parser/parser.go:232-236 | Header fields are laid over the coded fields. |
| `Parser.RequestRoundTrip` | internal/sip2/parser/parser.go:101-239 | For every message type, a request with a full header, coded fields and error-detection fields parses back to its code, header slices, sequence number and field values, when no text before the markers looks like one. |
| `Parser.NamedHeaderReadsBack` | internal/sip2/parser/parser.go:259-370 | For every message type, values of the widths SIP2 2.00 gives its fixed-length fields, written one after another, are found under their names whatever follows. |
| `Parser.SlotsTile` | internal/sip2/parser/parser.go:144-218 | The header fields of each message type lie side by side from the start of the header to where the coded fields begin. |
| `Parser.FixedNamesAreLong` | internal/sip2/parser/parser.go:259-370 | No header field can overwrite a two-character field. |
| `Parser.HeaderViewsAgreeIff` | internal/sip2/parser/parser.go:130-134 | Header fields read from the raw and from the stripped message agree exactly when no slot is completed only by the error-detection fields. |
| `Parser.ShortHeaderReadIff` | internal/sip2/parser/parser.go:143-215 | Without the nb due date the coded fields of an 11 or 29 are found exactly when they are shorter than it. |
| `Parser.ParsePanicsIff` | internal/sip2/parser/parser.go:130-141 | Parse panics exactly on a valid message whose first "AY" is at index 0 or 1. |
| `Parser.ParsePanicWitness` | internal/sip2/parser/parser.go:130-141 | Such messages exist for every encoder of five ASCII characters. |
| `Checksum.CalculateChecksum` | internal/sip2/parser/checksum.go:129-151 | Four hexadecimal digits of the number that brings the byte sum to 0 modulo 2^16, or the encoding error. |
| `Checksum.ChecksumOf` | internal/sip2/parser/checksum.go:146-147 | The checksum is below 2^16 and completes the sum to 0. |
| `Checksum.HexRoundTrip` | internal/sip2/parser/checksum.go:149-150 | The four digits written read back as the number, for every 16-bit number. |
| `Checksum.ScanMarks` | internal/sip2/parser/checksum.go:42-53 | The scan finds the first "AZ" and the last "AY" before it. |
| `Checksum.ValidateChecksum` | internal/sip2/parser/checksum.go:25-125 | The verdict, sequence number and error are those of the specification. |
| `Checksum.StripChecksum` | internal/sip2/parser/checksum.go:153-163 | The text before the first "AY" anywhere. |
| `Checksum.SealedIsValid` | internal/sip2/parser/checksum.go:58-110 | A text sealed with its own checksum is valid when the "AZ" written is the first; the sequence number is read back exactly when it has no "AY". |
| `Checksum.SealedReadsBack` | internal/sip2/parser/checksum.go:58-78 | The text summed is exactly the text sent. |
| `Checksum.EarlyAZHidesSequence` | internal/sip2/parser/checksum.go:45-66 | An "AZ" before every "AY" hides the sequence number and cuts the checked text. |
| `Checksum.SameFieldSameSum` | internal/sip2/parser/checksum.go:89-110 | With the same checksum field, a second message is valid exactly when its byte sum is the same modulo 2^16. |
| `Checksum.OneByteChangeDetected` | internal/sip2/parser/checksum.go:89-110 | Changing one checked byte is always detected. |
| `Checksum.TranspositionUndetected` | internal/sip2/parser/checksum.go:89-110 | Exchanging two checked bytes never is. |
| `Builder.Build` | internal/sip2/builder/builder.go:27-65 | The response, or the charset or encoding error, is that of the specification. |
| `Builder.SummedIsSentIff` | internal/sip2/builder/builder.go:33-58 | The checksummed text is the text sent exactly when the field delimiter does not straddle the message code. |
| `Builder.StraddlingDelimiter` | internal/sip2/builder/builder.go:70-78 | It can straddle: with delimiter "41" the text summed for an accepted login response is not the text sent. |
| `Builder.LongContentAgrees` | internal/sip2/builder/builder.go:33-43 | It does not for any content at least as long as the delimiter. |
| `Builder.BuildThenValidate` | internal/sip2/builder/builder.go:27-65 | Every message built with error detection, less its message delimiter, validates when its first "AZ" is the one written and the delimiter does not straddle the code; its sequence number is read back exactly when it has no "AY". |
| `Builder.BuildRenewResponse` | internal/sip2/builder/builder.go:207-272 | The 30 is the built message of its header and its fields in order. |
| `Builder.RenewalReadsBack` | internal/sip2/builder/builder.go:244-272 | For any delimiter under which each field is ended by its own, a reader of the coded part of the 30 gets every field, each screen message and print line in order, sanitized, blanks left out. |
| `Builder.OneCharRenewalClean` | internal/sip2/builder/builder.go:244-272 | Every one-character delimiter that is neither a space nor a letter of the codes is such, for all values. |
| `Framing.ReadMessage` | internal/server/connection.go:179-250 | The message, end of input or size error, and what is left unread, are those of the specification. |
| `Framing.ReadToDelimiter` | internal/server/connection.go:186-227 | The byte loop finds the first delimiter within the limit. |
| `Framing.AcceptedIff` | internal/server/connection.go:220-225 | A payload with the first delimiter at its end is accepted exactly up to 65536 - |delimiter| + 1 bytes, and a longer one is the size error. |
| `Framing.FramingRoundTrip` | internal/server/connection.go:179-250 | Reading concatenated frames that fit gives back exactly the messages, in order, and the rest. |
| `Framing.CRLFOnCRReader` | internal/server/connection.go:193-201 | A CR reader fed CRLF frames reads exactly the messages. |
| `Framing.CRLFOnLFReader` | internal/server/connection.go:229-232 | An LF reader fed CRLF frames reads exactly the messages. |
| `Framing.SendMessage` | internal/server/connection.go:376-381 | What is written ends in exactly one added delimiter. |
| `Framing.BuiltResponsesReachThePeer` | internal/server/connection.go:362-411 | A peer with the same settings reads back every response built and sent, in order, each with a valid checksum and its own sequence number. |
| `Framing.RenewalReachesThePeer` | internal/server/connection.go:362-411 | A 30 built, framed and sent, with no "AY" or "AZ" in front of the ones written, is read by a peer with the same settings as one message with a valid checksum and its sequence number; with the error-detection fields stripped and the header skipped, its fields split into exactly the sanitized values, per code and in order. |
| `Sanitize.SanitizeString` | internal/helpers/utils.go:77-116 | The scanning loop computes the declarative form: each maximal block of spaces and controls that holds a control becomes one space inside the value and nothing at either end. |
| `Sanitize.SanitizedBlockwise` | internal/helpers/utils.go:63-76 | However a value is cut into maximal blocks, the result has no control, cuts into the tidied blocks and keeps the ink in order. |
| `Sanitize.BlocksUnique` | internal/helpers/utils.go:63-76 | There is only one such cut. |
| `Sanitize.SanitizedIdentityIff` | internal/helpers/utils.go:63-76 | Exactly the control-free values pass unchanged. |
| `Sanitize.SanitizedIdempotent` | internal/helpers/utils.go:63-76 | Sanitizing twice is sanitizing once. |
| `Sanitize.FieldValueIsSafe` | internal/helpers/utils.go:147-152 | A field value holds no control, and no delimiter when that has no space in it. |
| `Sanitize.FieldValueIdentity` | internal/helpers/utils.go:147-152 | A value with neither is sent as it is. |
| `Sanitize.SafeDelimiterIff` | internal/helpers/utils.go:147-152 | The delimiters that no sanitized value can contain are exactly those without a space or with a control character. |
| `Sanitize.SpacedDelimiterLeaks` | internal/helpers/utils.go:147-152 | An instance: a line break between a and b becomes the delimiter "a b". |
| `Sanitize.SanitizeFixedWidthString` | internal/helpers/utils.go:154-175 | Every position is kept; controls become spaces. |
| `Fields.ParseFields` | internal/sip2/protocol/delimiter.go:36-58 | The last value of each code. |
| `Fields.ParseMultiValueFields` | internal/sip2/protocol/delimiter.go:62-85 | Every value of each code, in order. |
| `Fields.SingleAgreesWithMulti` | internal/sip2/protocol/delimiter.go:33-85 | The two maps have the same keys, and the single value is the last of the list. |
| `Fields.FieldListRoundTrip` | internal/sip2/protocol/delimiter.go:122-128 | Reading the concatenation of built fields gives, per code and in order, exactly the non-empty sanitized values and the required blanks. |
| `Fields.OneCharDelimiterIff` | internal/sip2/protocol/delimiter.go:122-128 | Among one-character delimiters this holds for all field lists exactly when the delimiter is not the space. |
| `Fields.PrefixedRoundTrip` | internal/sip2/protocol/delimiter.go:159-182 | The delimiter-first shape reads back the same way, blanks included. |
| `Fields.CleanFieldsRead` | internal/sip2/protocol/delimiter.go:36-58 | For any delimiter, a list whose fields are each ended by their own delimiter reads back as exactly the sanitized values, per code and in order. |
| `Fields.FieldListReadsIff` | internal/sip2/protocol/delimiter.go:36-58 | For any delimiter whose first character is in no code of the list, it reads back exactly when each field is ended by its own delimiter. |
| `Fields.ReadByAccident` | internal/sip2/protocol/delimiter.go:36-58 | Without that restriction on the codes a field can be read although it is not so ended: any field under the delimiter made of two copies of it. |
| `Fields.OneFieldRead` | internal/sip2/protocol/delimiter.go:36-58 | For any code and delimiter, what is read of one field is cut at the first delimiter sent: the whole value exactly when that is its own, and with the delimiter inside the code nothing of the part before it. |
| `Fields.DoubleBarLosesTail` | internal/sip2/protocol/delimiter.go:122-128 | With "||" the value "x|" comes back as "x". |
| `Cql.QuoteReadsBack` | internal/folio/cql.go:20-32 | For every value and continuation a CQL reader stops exactly at the closing quote, having read the value literally. |
| `Cql.QuoteInjective` | internal/folio/cql.go:20-32 | Quoted values with continuations are equal exactly when values and continuations are. |
| `Cql.RawReadsBackIff` | internal/folio/cql.go:12-18 | Unescaped, a value reads literally exactly when it has none of the five special characters: none of the escapes is superfluous. |
| `Cql.AccountQueryReadsBack` | internal/folio/fees.go:69-70 | No account or user ID changes the shape of the account query or drops its eligibility test. |
| `Calendar.AmountOrderIff` | internal/config/dateutil.go:8-82 | Adding grows and subtracting shrinks strictly with the amount, for each period. |
| `Calendar.YearsAreMonths` | internal/config/dateutil.go:26-35 | n years are 12n months, added or subtracted. |
| `Calendar.MonthAdditionLands` | internal/config/dateutil.go:26-30 | A month addition keeps the day in the target month, and overflows into the first three days of the next exactly when the target month is too short. |
| `Calendar.BaseOrderKeptIff` | internal/config/dateutil.go:26-30 | Adding months, or taking them away, keeps two base dates in order exactly unless they are in adjacent months and the earlier day of the month exceeds the later by more than the length of the earlier target month. |
| `Calendar.BaseOrderAlmostKept` | internal/config/dateutil.go:26-30 | Month addition never reorders two base dates by more than two days. |
| `Calendar.BaseOrderBroken` | internal/config/dateutil.go:8-10 | An instance, in every common year: 31 January and 1 February, one month later. |
| `Calendar.CivilRoundTrip` | internal/config/dateutil.go:118-122 | Day numbers and valid Gregorian dates correspond one to one. |
| `Calendar.YearLength` | internal/config/dateutil.go:32-35 | 365 days, or 366 in a leap year. |
| `Calendar.StripTime` | internal/config/dateutil.go:118-122 | The midnight of the same day. |
| `Calendar.ExpiredByDate` | internal/config/dateutil.go:107-116 | Expired means an earlier date, whatever the times of day. |
| `Duration.ParseDuration` | internal/config/duration.go:21-52 | What is accepted has a positive 64-bit amount and a known upper-case period. |
| `Duration.PrintParseIff` | internal/config/duration.go:18-57 | Exactly the durations with a positive 64-bit amount and a known period survive printing and parsing. |
| `Duration.PrintNormalises` | internal/config/duration.go:18-57 | Parsing, printing and parsing again is parsing. |
| `Renewal.EligibleIff` | internal/renewal/service.go:27-120 | A patron is renewed exactly when renewals are on, the group is admitted, the end date is inside the window, and an account already over may be extended and is not over for longer than the limit. |
| `Renewal.NeverBackwards` | internal/renewal/service.go:122-138 | Over any visits, in any order and under any configurations that keep up on the day they are used, the expiration date never moves backwards and an active account stays active. |
| `Renewal.KeepsUpIff` | internal/renewal/service.go:122-138 | On a given day nobody loses time exactly when today plus extendFor is no earlier than today plus renewWithin, and nobody is renewed twice that day exactly when it is later. |
| `Renewal.RenewedAgainIff` | internal/renewal/service.go:99-119 | A renewed patron is eligible again the same day exactly when the new date is still inside the window. |
| `Renewal.AlikeKeepUpIff` | internal/config/config.go:597-611 | Between two durations in days, or in months and years, only the amounts decide, on every day. |
| `Renewal.MixedKeepUpIff` | internal/config/config.go:597-611 | Days against months keep up on a day exactly according to the lengths of the months that follow it. |
| `Renewal.MixedKeepsUp` | internal/config/config.go:597-611 | So they keep up on every day when 28 days a month are few enough for the window, or 31 enough for the extension. |
| `Renewal.ThirtyDaysFallBehind` | internal/config/dateutil.go:84-105 | 30D against a window of 1M moves an account ending on 3 March back to 2 March. |
| `Renewal.ValidatesIff` | internal/config/config.go:589-626 | The accepted configurations with renewals on are exactly those that can select somebody and never meet an unusable duration, now or once extendExpired is on. |
| `Tenants.LoadAll` | internal/config/reload.go:142-160 | The map, list and scTenants gathered from the sources that load. |
| `Tenants.LoadTenantConfigs` | internal/config/config.go:214-248 | At startup the same, or nothing when any source fails. |
| `Tenants.LastByNameIs` | internal/config/reload.go:154-157 | The last configuration declared under a name wins. |
| `Tenants.Config.SetTenants` | internal/config/config.go:59-65 | The three parts are replaced together. |
| `Tenants.Reloader.Reload` | internal/config/reload.go:137-179 | The new configuration is the specified one, the routing service is set up for it whenever it changed, and an installed tenant and a matching service are kept. |
| `Tenants.NeverEmptied` | internal/config/reload.go:162-176 | Once a tenant is installed no sequence of reloads leaves none, and what is installed is the first configuration or all three parts of one single reload. |
| `Tenants.SurvivesIff` | internal/config/reload.go:147-166 | A tenant survives a reload exactly when some source that loaded declares it or nothing at all was loaded. |
| `Tenants.Service.constructor` | internal/tenant/service.go:25-77 | The service is set up for the configuration. |
| `Tenants.Service.Reinitialize` | internal/tenant/service.go:79-130 | The service is set up for the new configuration as a new one would be. |
| `Tenants.SameDefault` | internal/tenant/service.go:79-130 | Two services set up for the same loaded configuration have the same default. |
| `Tenants.Service.SelectDefault` | internal/tenant/service.go:34-71 | The default is chosen by the four priorities. |
| `Tenants.FindCatchAll` | internal/tenant/service.go:34-43 | The first rule-less scTenant whose tenant exists. |
| `Tenants.FindUnreferenced` | internal/tenant/service.go:45-57 | The first declared tenant no scTenant names. |
| `Tenants.DefaultMeans` | internal/tenant/service.go:34-71 | For every loaded configuration there is a default exactly when there is a tenant, it is unique, and a usable rule-less scTenant wins. |
| `Tenants.Service.InitializeResolvers` | internal/tenant/service.go:132-166 | Each phase holds a permutation, in falling priority, of the resolvers its scTenants call for. |
| `Tenants.Service.AddResolver` | internal/tenant/service.go:168-176 | A resolver is appended to the list of its phase. |
| `Tenants.Sort` | internal/tenant/service.go:163-165 | A permutation in falling priority. |
| `Tenants.Service.ResolveAtConnect` | internal/tenant/service.go:178-209 | The first resolver that matches, else the default. |
| `Tenants.ConnectMeans` | internal/tenant/service.go:178-209 | A subnet match wins over a port match and either over the default, with the configuration installed under the winning name; with a tenant installed there is always an answer. |
| `Tenants.Service.ResolveComplete` | internal/tenant/service.go:247-296 | The tenant of the first declared entry whose present rules all hold and whose tenant exists, else the default. |
| `Tenants.CompleteMeans` | internal/tenant/service.go:247-296 | With a tenant installed a login always has a tenant, an installed one or the default. |
| `Fees.HandleFeePaid` | internal/handlers/fee_paid.go:81-224 | What is posted and answered, in every case. |
| `Fees.PaySingleAccount` | internal/handlers/fee_paid.go:229-285 | One payment of the asked amount to the eligible account FOLIO returned; fallback only when there is none. |
| `Fees.PayBulkAccounts` | internal/handlers/fee_paid.go:289-369 | One payment of the lesser of asked and owed over all open accounts, reported in equal shares. |
| `Fees.BuildLines` | internal/handlers/fee_paid.go:424-463 | One group of fields for each result that succeeded, in order. |
| `Fees.PaidOnce` | internal/handlers/fee_paid.go:157-224 | At most one payment per 37, so never a bulk one after a posted single one; never more than asked nor, in bulk, than owed; accepted exactly when FOLIO took it. |
| `Fees.BulkAddsUp` | internal/handlers/fee_paid.go:355-463 | The applied amounts sum to the amount posted, balances are not negative and sum to at least owed less paid, exactly that when no account owes less than its share. |

## Left out

- Lifecycle: the four reads of the short-circuit test in a 93 are one step, as are the two clock readings after a renewal gets the lock, and the swap, authentication and credential writes under the lock; starting a logout job is part of the step that gives up the pair.
- Lifecycle: a process exit, which logs nothing out, and a handler that panics in the middle of a step.
- Lifecycle: with a tenant change in the same step as the message that causes it, callers are taken to have finished before the next message arrives, as on a connection's single read loop.
- Handlers.TryRelogin: the waits between attempts are only cancelled or not; their lengths do not appear.
- Logout.LogoutTokens: the three second limit appears only as a failed request; log lines are not modelled.
- PatronCache.NeverSomeoneElse: a tenant's barcodes keep their patrons for the length of a run, and a record is also found under the barcode it carries.
- PatronCache: patron password verification by login, which opens sessions outside the kiosk's own.
- Parser.Parse: the error texts, message validation, and delimiters after unescaping (the delimiter is taken as configured text).
- Sanitize.SanitizeString: decoding of invalid UTF-8, which Go replaces by U+FFFD.
- Checksum.ValidateChecksum: encoders with state across calls; each text is encoded in one call, as in the source.
- Framing.ReadMessage: read deadlines and socket errors; the input is what has arrived followed by its end.
- Fields.FieldListReadsIff: lists with the first character of the delimiter in a code, where a field can also be read by accident (`ReadByAccident`); `CleanFieldsRead` covers them in one direction.
- Builder: the response builders other than Renew Response, and the formatting of dates (a date is its text).
- Calendar: time zones (dates are taken in UTC) and years beyond Go's range; amounts near 2^63 would wrap there.
- Renewal.EligibleIff: the comparison of internal/renewal/service.go:91, of an instant with a midnight, is taken in UTC.
- Tenants.Reloader.Reload: which settings a reload compares; they are split into compared and not compared, and a change in the latter or in scTenants alone is not noticed, as in the source.
- Tenants.Sort: the order among equal priorities, which sort.Sort leaves open.
- Tenants: validation of configurations on loading beyond rolling renewal, and the loaders.
- Fees: floating-point rounding, the two-decimal text of amounts, and amounts that are not numbers or infinite, which the float parser lets through.
- Fees: the receipt fields that do not depend on the payment (AO, AA, FC, BK and the screen message).
- Session identifiers, creation and activity times, the clone of a session.
- HTTP, JSON, TLS, the accept loop, metrics, logging and its filters, localization, media types, item and patron responses, placeholder messages.
