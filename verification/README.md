# Verification of the Matter stack, the ASH link, the RF queue and the planner's algorithms

A Dafny 4.11 model of the parts of the repository that keep state or transform data without outside help, with proofs of
what they promise. `dafny verify dfyconfig.toml` checks all of it.

- **TLV** (`TlvFormat`, `TlvTree`, `TlvWriter`, `TlvReader`, `TlvWalk`, `TlvLoop`, `TlvPrefix`): the element format of Appendix A
  of the Matter Core Specification, the streaming writer and the cursor reader as classes, the recursive reading they
  implement, the flat scan that skips a body, and the loop over elements that every message decoder is. `Transcode`, `Invoke`,
  `InvokeResponse`, `Report`, `Certificate` and `CertificateForm` are copying, command messages, attribute reports and
  certificates on top. `WireForms` writes out the bytes of all messages and headers.
- **Secure link** (`Ccm`, `Replay`, `MessageHeader`, `ProtoHeader`, `Session`, `Network`, `Mrp`): AES-CCM over any block function,
  the replay window, two session ends over a network that drops, duplicates, reorders and invents messages, and the reliable
  exchange over an arbitrary course of events.
- **Key agreement** (`Spake2`, `PaseMessages`, `Pase`, `SigmaMessages`, `Case`, `CaseInterference`): PASE and CASE message by message on
  the real message and certificate bytes, over an abstract group, undisturbed and with interference.
- **Onboarding** (`Verhoeff`, `ManualCode`, `Base38`, `QrCode`, `OnboardingCodes`): check digit, manual codes and QR payloads.
- **ASH** (`AshFrame`, `AshConn`): CRC, randomising, byte stuffing, frames and the framing loop.
- **RF transmit queue** (`RfQueue`): the coalescing queue, its wake slot and the interleavings of callers and loop.
- **Planner** (`Transfers`, `Calendar`, `Recurrence`, `Positions`, `CardChains`, `CardSteps`, `CardStore`,
  `BoardLists`, `LoginLimiter`, `StockLedger`): greedy transfer pairing, recurrence over the Gregorian calendar, cards and
  columns and the lists they show, the login limiter, the derived stock.
- `Arithmetic`, `Radix`, `Bytes`, `Words`: division facts, digits in any base, machine integers, machine words as bits.

Code that works step by step is a method or a class here, proved against a function; what the program promises is then
proved of that function, usually for every input or every run. Machine words that are combined bit by bit are sequences of
bits (`Words`), and widths and wrap-around are those of the source. A message decoder is proved equal to a function for every
byte string, malformed ones included; that the function inverts the encoder, and for which messages, are lemmas about it.
Functions that stand on both sides of such laws are stated once more without them: formats by their bytes, a run by what was
received or let through, tables by the lists they show.

Several results differ from what one might expect, and are stated as the code has them:

- The replay window forgets the previous maximum after an advance of exactly 32, although it is still in the window
  (`Replay.OnceUnlessDisplaced`, with a run that shows it in `Replay.ReplayedCounter`).
- A monthly rule goes to the next month even if the current one has an occurrence left (`Recurrence.NextIsLeast` says when,
  `Recurrence.MonthSkipped` shows one).
- The base-38 reader drops what exceeds the bytes of a group, so several texts give the same bytes (`Base38.Base38Exact`,
  and `Base38.ExcessIsRead` for one of them).
- Skipping a container counts nesting from that container, reading counts it from the top (`TlvTree.SkipInside`, with
  such a container in `TlvTree.PassedOverUnread`).
- No next date is found where it would be 1 January of the year 1, because the time type takes that for no date at all; moving
  such a card into the last column fails as a whole (`CardChains.ZeroDateIsMissed`, `CardSteps.FirstCompletion`).
- After a count of today the stock list asks for today's items although the ledger will not take them
  (`StockLedger.MakingIsEnough`, with such a count in `StockLedger.MadeForACountedDay`).
- The PASE context hashes both parameter messages with no length between them, so a confirmation alone does not show that both
  sides took the same bytes for the response (`Pase.ConfirmedMessages` says when it does, `Pase.RunTogether` how it may not).
- Some values that the encoders take do not come back as they were: an empty list of command fields or usages, a status beside
  a command or a value, flags on certificate tags (`Invoke.RoundTrip`, `InvokeResponse.RoundTrip`, `Report.RoundTrip`,
  `Certificate.RoundTrip`).

## Model

| member | source | states |
|---|---|---|
| TlvFormat.TagRoundTrip | go-matter/tlv/reader.go:225-282 | Every canonical tag, in all five kinds and both widths, is read back from the bytes the writer gives it, whatever follows |
| TlvFormat.SignedRoundTrip | go-matter/tlv/writer.go:98-113 | A signed number stored in its smallest width sign-extends to itself, also at the boundaries of the widths |
| TlvFormat.BlobRoundTrip | go-matter/tlv/writer.go:136-153 | A string or octet string of any length is read back from its smallest length field and bytes |
| TlvFormat.HeadRoundTrip | go-matter/tlv/reader.go:99-129 | Writing a control byte, tag and value and reading one head gives tag, type and value back and consumes exactly those bytes |
| TlvTree.MembersRoundTrip | go-matter/tlv/reader.go:88-148 | A container body of any well-formed tree within the depth limit is read back exactly, whatever surrounds it |
| TlvTree.DocumentRoundTrip | go-matter/tlv/writer.go:27-215 | Any forest of elements nested at most 32 deep is read back from its encoding with the same tags, types, values and shape |
| TlvTree.MembersWellFormed | go-matter/tlv/reader.go:88-148 | For every byte string: whatever is read without error is a tree the writer can write, within the depth limit |
| TlvTree.SkipIsDrain | go-matter/tlv/reader.go:369-423 | For every byte string: the flat scan over a body and reading the body agree on success, on the position reached and on the error |
| TlvTree.RoomMatters | go-matter/tlv/reader.go:134-148 | A smaller depth allowance refuses exactly the trees that are taller, and changes nothing else |
| TlvTree.SkipInside | go-matter/tlv/reader.go:369-423 | Inside other containers the scan counts levels from itself and reading counts them from the top: reading succeeds iff the scan does and the tree fits what is left of the limit, and then both stop at the same place |
| TlvTree.PassedOverUnread | go-matter/tlv/reader.go:134-148 | A concrete body that the scan passes over but that cannot be entered to its end |
| TlvWriter.Writer.Control | go-matter/tlv/writer.go:27-71 | The control byte and tag bytes are appended, or the first error sticks: an unknown kind, or a context tag above 255 |
| TlvWriter.Writer.AppendLE | go-matter/tlv/writer.go:73-77 | The low bytes of a number are appended, least significant first |
| TlvWriter.Writer.PutUint | go-matter/tlv/writer.go:80-95 | Appends the head of an unsigned number in its smallest width |
| TlvWriter.Writer.PutInt | go-matter/tlv/writer.go:98-113 | Appends the head of a signed number in its smallest width |
| TlvWriter.Writer.PutBlob | go-matter/tlv/writer.go:136-153 | Appends a string or octet string with its smallest length field |
| TlvWriter.Writer.Start | go-matter/tlv/writer.go:165-180 | Opens a container; the depth grows even after an error |
| TlvWriter.Writer.EndContainer | go-matter/tlv/writer.go:183-193 | Closes a container, or records the error that none is open |
| TlvWriter.Writer.Raw | go-matter/tlv/writer.go:199-203 | Appends encoded bytes unless an earlier call failed |
| TlvWriter.Writer.Finish | go-matter/tlv/writer.go:207-215 | The encoding iff no call failed and every container is closed |
| TlvWriter.PutAll | go-matter/tlv/writer.go:27-215 | Put, Start and EndContainer calls for any forest append its encoding and leave the depth as it was |
| TlvWriter.Encode | go-matter/tlv/writer.go:27-215 | A document written with the writer is read back to the same elements if it is at most 32 deep |
| TlvReader.Reader.ReadTagBytes | go-matter/tlv/reader.go:225-282 | The cursor reads the tag that the format defines, or fails on truncation without moving past the input |
| TlvReader.Reader.ReadLE | go-matter/tlv/reader.go:285-296 | Accumulates a little-endian number, or fails and stays where it is |
| TlvReader.Reader.ReadValue | go-matter/tlv/reader.go:299-365 | Consumes one value and leaves type and value in the fields, with the error of the format otherwise |
| TlvReader.Reader.SkipContainerBody | go-matter/tlv/reader.go:369-423 | The loop over levels ends where the flat scan ends, with its error if it fails |
| TlvReader.Reader.Next | go-matter/tlv/reader.go:88-129 | Skips an unentered container, leaves a finished one and stands on the next element; position, depth, element and error are those of the head at that place |
| TlvReader.Reader.Enter | go-matter/tlv/reader.go:134-148 | Steps into the current container, refuses when there is none or when it is too deep |
| TlvReader.Reader.GetUint | go-matter/tlv/reader.go:164-172 | An unsigned number, or a signed one that is not negative |
| TlvReader.Reader.GetInt | go-matter/tlv/reader.go:176-184 | A signed number, or an unsigned one that fits |
| TlvReader.AsUint | go-matter/tlv/reader.go:164-172 | The number held, iff it is in the range of 64 unsigned bits |
| TlvReader.AsInt | go-matter/tlv/reader.go:176-184 | The number held, iff it is in the range of 64 signed bits |
| TlvReader.MembersByNext | go-matter/tlv/reader.go:88-129 | Reading a body is calling Next and going on from what it reports: the cursor iterates exactly the recursive reading |
| TlvReader.ReadElement | go-matter/tlv/reader.go:88-148 | Entering and draining an element with the cursor gives the recursive reading's tree, or its error |
| TlvReader.ReadBody | go-matter/tlv/reader.go:88-148 | Iterating an entered container gives its members in order and ends at the parent level, or with the error the recursive reading meets first |
| TlvReader.SkippingRefinesReading | go-matter/tlv/reader.go:92-96 | For every input: where entering a container and draining it succeeds, Next without entering reports the same element, position and depth as Next after draining |
| TlvWalk.NextAtMember | go-matter/tlv/reader.go:88-129 | In front of encoded members Next stands on the first of them, and it can be entered or passed over |
| TlvWalk.Walk | go-matter/tlv/reader.go:88-148 | One call of Next in front of encoded members: the first of them, or back at the parent level behind the end marker |
| TlvLoop.OpenStructure | go-matter/tlv/reader.go:88-148 | For every input: a reader inside the structure that the input starts with, if it starts with one |
| TlvLoop.MessageMembers | go-matter/tlv/reader.go:88-148 | A loop over Next whose step takes each encoded member takes them all in order and ends right behind the structure, whatever follows it |
| TlvLoop.EachKeeps | go-matter/tlv/reader.go:88-129 | For every input: what each step of a loop over Next keeps holds of its result |
| TlvPrefix.MessageStays | go-matter/tlv/reader.go:88-148 | The format is self-delimiting: what is read without error is read the same when more bytes follow |
| WireForms.HeadOnWire | go-matter/tlv/tag.go:44-71 | Every element head as literal numbers: the control byte, the tag in each of its eight forms, and the value, among them 08 and 09 for the booleans, numbers and lengths in the least of four widths, little-endian, and negative numbers modulo the width |
| WireForms.NodeOnWire | go-matter/tlv/writer.go:165-193 | A container is its head, its members and the byte 18 |
| WireForms.WideItems | go-matter/tlv/reader.go:299-365 | Numbers, strings and octet strings are read from each of the four widths, the least or not |
| WireForms.WideSigned | go-matter/tlv/reader.go:299-316 | Signed numbers are read from each width that holds them |
| WireForms.WideTags | go-matter/tlv/reader.go:225-282 | Profile tags are read from four bytes even where two would do |
| WireForms.ParamRequestOnWire | go-matter/pase/pase.go:50-59 | The bytes of a parameter request for all its fields: 15, the fields 1 to 4, 18 |
| WireForms.ParamResponseOnWire | go-matter/pase/pase.go:113-127 | The bytes of a parameter response: fields 1 to 3, and the parameters, if there are any, as a structure under 4 |
| WireForms.PakeOnWire | go-matter/pase/pase.go:186-212 | The bytes of the three key exchange messages: octet strings under 1 and 2 |
| WireForms.SigmaOnWire | go-matter/casesession/sigma.go:38-47 | The bytes of a Sigma1 or Sigma2: the fields 1 to 4 |
| WireForms.CredentialsOnWire | go-matter/casesession/sigma.go:157-167 | The bytes of the encrypted part: certificates under 1 and 2, the second if there is one, and the signature under 3 |
| WireForms.SignedOnWire | go-matter/casesession/sigma.go:194-205 | The bytes that are signed: the signer's certificates under 1 and 2, its own key under 3 and the other's under 4 |
| WireForms.SigmaLabels | go-matter/casesession/keys.go:8-17 | The labels and nonces of CASE spell Sigma2, Sigma3, NCASE_Sigma2N and NCASE_Sigma3N |
| WireForms.PakeLabel | go-matter/pase/pase.go:28-30 | The context of PASE starts with CHIP PAKE V1 Commissioning |
| WireForms.TranscriptOnWire | go-matter/spake2/confirm.go:19-41 | The PASE transcript field by field, each behind its length in eight bytes: context, two empty identities, both fixed points, the prover's and the verifier's share, Z, V and w0 |
| WireForms.MessageHeaderOnWire | go-matter/message/header.go:73-106 | Every message header byte by byte: flags, session, security flags, counter, source, destination |
| WireForms.ProtoHeaderOnWire | go-matter/message/proto.go:35-61 | Every protocol header byte by byte: flags, opcode, exchange, protocol, vendor, acknowledged counter |
| WireForms.NonceOnWire | go-matter/session/session.go:19-25 | Security flags, counter and node, the numbers little-endian |
| WireForms.CommandOnWire | go-matter/im/invoke.go:35-53 | A command: its path as a list under 0 with endpoint, cluster and command under 0 to 2, and the fields as a structure under 1 |
| WireForms.InvokeRequestOnWire | go-matter/im/invoke.go:55-68 | An invoke request: both flags, the commands as an array under 2, and revision 11 under 255 |
| WireForms.InvokeResponseOnWire | go-matter/im/response.go:69-95 | An invoke response: the flag, the results as an array under 1, and the revision |
| WireForms.InvokeStatusOnWire | go-matter/im/response.go:79-85 | A command status: path under 0 and code under 1 |
| WireForms.ReportStatusOnWire | go-matter/im/transcode.go:103-140 | A report's status: path under 0 with endpoint, cluster and attribute under 2 to 4, and code under 1 |
| WireForms.ReportDataOnWire | go-matter/im/transcode.go:103-140 | A report's data: version under 0, path under 1, and the value |
| WireForms.ReportOnWire | go-matter/im/transcode.go:103-140 | A report: subscription under 0 unless it is zero, the reports as an array under 1, the flag under 4 if it is set, and the revision |
| WireForms.CertificateOnWire | go-matter/cert/encode.go:8-69 | All eleven fields of a certificate with names, printable flags and extensions, byte by byte |
| Transcode.WriteElement | go-matter/im/transcode.go:26-88 | For every input: if reading the current element succeeds, its tree (float32 widened) is appended under the given tag and the reader stands behind it; otherwise the reader holds the error, which is returned if it is the depth limit, and if it is another the tree is appended as far as it was read, with its containers closed |
| Transcode.WriteMembers | go-matter/im/transcode.go:78-83 | The loop over a container's members copies all of them in order, up to the error if there is one |
| Transcode.CaptureAnon | go-matter/im/transcode.go:16-22 | An error without a current element or at the depth limit; otherwise one anonymous element that decodes to the tree as far as it could be read, whole if reading succeeds |
| Transcode.WidenedFloatFree | go-matter/im/transcode.go:13-16 | Trees without float32 are copied unchanged |
| Transcode.CapturedReadsBack | go-matter/im/transcode.go:16-88 | Whatever was read, its capture is a document within the depth limit |
| Invoke.EncodeInvokeRequest | go-matter/im/invoke.go:55-68 | For every request, raw fields included: the bytes of its parts in order, with the fields of each command as they stand |
| Invoke.RequestIsTree | go-matter/im/invoke.go:33-68 | Where the fields of each command encode flat members, the bytes are the encoding of the request's tree |
| Invoke.DecodePath | go-matter/im/invoke.go:70-104 | For every input: a path only from a list, other tags passed over, numbers cut to their widths, and the reader's error reported |
| Invoke.TranscodeFlatStruct | go-matter/im/invoke.go:109-140 | For every input: the members encoded anew one after the other, or an error for a member that is not plain |
| Invoke.DecodeCommandData | go-matter/im/invoke.go:142-164 | For every input: path and fields of a command, no fields where none were read; a failing reader is noticed later |
| Invoke.DecodeInvokeRequest | go-matter/im/invoke.go:167-198 | For every input: flags and the commands of all arrays in order, or the first error |
| Invoke.RequestReadBack | go-matter/im/invoke.go:55-198 | An encoded request is read back, whatever follows it: the same commands in order, and both flags |
| Invoke.DecodedIsProper | go-matter/im/invoke.go:109-198 | For every input: the fields of a decoded command are absent or encode plain members, at least one |
| Invoke.RoundTrip | go-matter/im/invoke.go:55-198 | A request goes through encoder and decoder unchanged iff the fields of each command are absent or encode plain members, at least one |
| Invoke.NoFields | go-matter/im/invoke.go:45-53 | An empty list of fields does not come back as an empty list |
| InvokeResponse.EncodeInvokeResponse | go-matter/im/response.go:69-95 | For every list of results: refused iff some result has neither part, otherwise the bytes of the results in order, a command before a status |
| InvokeResponse.DecodeInvokeResponse | go-matter/im/response.go:98-178 | For every input: the results of all arrays in order, or the first error |
| InvokeResponse.RoundTrip | go-matter/im/response.go:69-178 | A response goes through encoder and decoder unchanged iff each result is a status alone or a command alone with proper fields |
| Certificate.Encode | go-matter/cert/encode.go:8-69 | The encoding of the certificate's tree: names with the flag of printable strings, and the extensions that there are |
| Certificate.Decode | go-matter/cert/cert.go:113-294 | For every input: the certificate, or the first of the errors for tags, kinds, types, times above 32 bits and the reader |
| Certificate.CertReadBack | go-matter/cert/cert.go:113-294 | Every certificate is read back, whatever follows it, up to flags on tags, fields that do not count and an empty list of usages |
| Certificate.RoundTrip | go-matter/cert/encode.go:8-69 | A certificate goes through encoder and decoder unchanged iff its attribute tags are below 0x80, only the field of an attribute's kind is set, and its list of usages is not empty |
| Certificate.FindNumber | go-matter/cert/cert.go:67-80 | The number of the first attribute with the tag that is no string |
| Certificate.FlagIsLost | go-matter/cert/cert.go:183-202 | A number under a flagged tag comes back under another tag |
| CertificateForm.MembersMinimal | go-matter/tlv/writer.go:83-153 | For every byte string: members that were read stand there as the writer would write them iff every head has its least width and every end marker is plain |
| CertificateForm.ReproducedExactly | go-matter/cert/encode.go:5-25 | For every byte string: decoding succeeds and encoding gives the bytes back iff they are one anonymous structure of the eleven fields in order, extensions under increasing tags, all in least widths, and nothing behind it |
| CertificateForm.Reencode | go-matter/cert/encode.go:5-25 | Decoding and encoding again, with that condition |
| CertificateForm.BehindIsLost | go-matter/cert/cert.go:113-166 | Bytes behind a certificate are not noticed and not reproduced |
| CertificateForm.DecodedIsStorable | go-matter/cert/cert.go:113-294 | What was decoded can be encoded |
| Report.EncodeReportData | go-matter/im/transcode.go:103-140 | Refused iff some value is too deep; otherwise the bytes are the encoding of the message's tree with the values copied out of their bytes, each as far as it can be read |
| Transcode.AllIsMet | go-matter/im/transcode.go:26-88 | Where reading succeeds, what is copied is everything |
| Transcode.MetWellFormed | go-matter/im/transcode.go:26-88 | For every input: what reading meets before it ends or fails can be written, and stays within the depth limit unless that is the error |
| Report.CaptureValue | go-matter/im/read.go:217-222 | For every input: the current element captured anew and the reader behind it, or the reader's error |
| Report.DecodeAttrPath | go-matter/im/read.go:26-62 | For every input: a path only from a list, other legal members passed over, numbers cut to their widths, and the reader's error reported |
| Report.DecodeReport | go-matter/im/read.go:164-228 | For every input: the parts of one report, whether status, data or both; what is put together after the reader failed is given to nobody |
| Report.DecodeReportData | go-matter/im/read.go:132-162 | For every input: subscription and the reports of all arrays in order, or the first error |
| Report.ReadBack | go-matter/im/read.go:132-228 | An encoded message is read back, whatever follows it: subscription and reports in order, with or without the suppress flag |
| Report.DecodedValues | go-matter/im/read.go:132-228 | For every input: the value of a decoded report is absent or one anonymous element of at most 28 levels without float32 |
| Report.RoundTrip | go-matter/im/transcode.go:103-140 | Reports go through encoder and decoder unchanged iff each carries such a value, or none, or a status and nothing besides |
| Replay.ReplayWindow.Accept | go-matter/session/replay.go:24-54 | Updates maximum, bitmap and start flag, and decides, as the function on window values says |
| Replay.RunExact | go-matter/session/replay.go:24-54 | Over every run: bit d-1 is set iff the maximum minus d was accepted, for d to 31 always and for d = 32 but for the displaced maximum |
| Replay.Decision | go-matter/session/replay.go:24-54 | Over every run: a counter is accepted iff it is above the maximum, or in the window and never accepted before, or the displaced maximum |
| Replay.AcceptedAtMostTwice | go-matter/session/replay.go:24-54 | In every run no counter is accepted more than twice |
| Replay.OnceUnlessDisplaced | go-matter/session/replay.go:33-46 | A run accepts some counter twice iff it presents a displaced maximum, that is the old maximum after an advance of exactly 32 |
| Replay.OnceWithoutAdvanceBy32 | go-matter/session/replay.go:33-46 | Without an advance of exactly 32 every counter is accepted at most once |
| Replay.ReplayedCounter | go-matter/session/replay.go:33-37 | A concrete run in which a counter is accepted twice |
| MessageHeader.EncodeHeader | go-matter/message/header.go:73-106 | Builds the fixed and optional fields, or refuses an unknown destination kind |
| MessageHeader.DecodeHeader | go-matter/message/header.go:110-161 | Advances over the fields that the flags announce; the rest is the payload |
| MessageHeader.RoundTrip | go-matter/message/header.go:73-161 | A header is read back with exactly its bytes consumed, for every combination of optional fields |
| ProtoHeader.Encode | go-matter/message/proto.go:35-61 | Builds flags, fixed and optional fields |
| ProtoHeader.Decode | go-matter/message/proto.go:64-97 | Header and payload, or an error for truncated fields and secured extensions |
| ProtoHeader.RoundTrip | go-matter/message/proto.go:35-97 | A message is split back into the header and payload it was put together from |
| Session.NonceInjective | go-matter/session/session.go:19-25 | A nonce determines flags, counter and node |
| Session.Secure.Encrypt | go-matter/session/session.go:70-92 | Seals under the counter and advances it, or refuses at the last counter and changes nothing |
| Session.Secure.DecryptMsg | go-matter/session/session.go:105-122 | Only frames that authenticate reach the replay window; its decision tells a fresh message from a replayed one |
| Network.AuthenticWasSent | go-matter/session/session.go:105-122 | Every frame that authenticates carries a payload the peer sealed under that counter |
| Network.AlwaysSafe | go-matter/session/session.go:70-122 | Over every run on a network that drops, duplicates, reorders and invents: no key and nonce pair is used twice, and everything received was sent |
| Network.DeliveredAtMostTwice | go-matter/session/session.go:105-122 | Neither end returns a counter as new more than twice, and only once unless it is a displaced maximum |
| Network.SameCounterSamePayload | go-matter/session/session.go:70-122 | At either end two messages returned under one counter have the same payload |
| Network.ExhaustedForever | go-matter/session/session.go:70-74 | Either end whose counter is used up never sends again |
| Network.GenuineIsDelivered | go-matter/session/session.go:105-122 | At either end a frame of the peer that arrives for the first time and in the window is returned |
| Network.Perform | go-matter/session/session.go:70-122 | Whatever payloads and bytes two session objects are given is a run of the network, and they return exactly what its ends return |
| Ccm.Aead.MacBlock | go-matter/crypto/ccm.go:103-108 | One block is added into the chaining value in place |
| Ccm.Aead.MacRegion | go-matter/crypto/ccm.go:112-122 | The padded blocks of a region are chained in place |
| Ccm.Aead.ComputeMac | go-matter/crypto/ccm.go:71-101 | The tag is the chain over first block, padded data with its length, and padded plaintext, as `Ccm.TagIsChain` spells out |
| Ccm.Aead.CtrInto | go-matter/crypto/ccm.go:125-143 | The destination becomes the source combined with the key stream from the start counter |
| Ccm.Aead.SealTo | go-matter/crypto/ccm.go:156-175 | Ciphertext and masked tag; `Ccm.SealedByte` and `Ccm.TagIsChain` give each byte of both |
| Ccm.Aead.OpenFrom | go-matter/crypto/ccm.go:178-205 | The plaintext iff the tag matches, and an error for each bad length |
| Ccm.OpenSeal | go-matter/crypto/ccm.go:156-205 | For every block function and all allowed lengths, opening inverts sealing |
| Ccm.OpenedWasSealed | go-matter/crypto/ccm.go:178-205 | A ciphertext that opens is the sealing of the plaintext it opens to |
| Ccm.SealedByte | go-matter/crypto/ccm.go:125-143 | Every byte of the ciphertext is the plaintext's combined with the byte of the enciphered counter block, which counts from 1 |
| Ccm.TagIsChain | go-matter/crypto/ccm.go:71-101 | The tag part, with the enciphered counter block 0 taken off, is the chain from the zero block over first block, two length bytes with the additional data, and the plaintext, each region padded with zeros |
| Ccm.ChainIsCbc | go-matter/crypto/ccm.go:103-108 | The chain is CBC: each block is added to what the blocks before it gave, and enciphered |
| Ccm.XorIsBitwise | go-matter/crypto/ccm.go:103-108 | Combining two bytes combines each of their bits |
| Ccm.OtherDataMeansCollision | go-matter/crypto/ccm.go:178-205 | A sealed message that opens under other additional data shows two chains over different inputs, neither of them a prefix of the other, that agree in the length of the tag |
| Ccm.ChangedDataIsNoticed | go-matter/crypto/ccm.go:178-205 | For every block function that is one to one and tags of 16 bytes: with any one byte of the additional data changed, a sealed message does not open |
| Ccm.ChangedByteIsNoticed | go-matter/crypto/ccm.go:178-205 | Nor does it with any one byte of the ciphertext in front of the tag changed |
| Ccm.CtrTwice | go-matter/crypto/ccm.go:125-143 | Applying the key stream twice gives the source back |
| Ccm.BlocksInjective | go-matter/crypto/ccm.go:112-122 | Equally long regions with equal padded blocks are equal |
| Ccm.B0Injective | go-matter/crypto/ccm.go:71-84 | The first block determines nonce, presence of additional data and plaintext length |
| Ccm.MacBlocksPrefixFree | go-matter/crypto/ccm.go:71-101 | No block sequence is a prefix of another's: nonce, data and plaintext are determined (section 5.4 of NIST SP 800-38C) |
| Ccm.CounterBlocksDistinct | go-matter/crypto/ccm.go:125-153 | The counter blocks of a message are pairwise distinct and none is a first block |
| Mrp.MrpInterval | go-matter/controller/mrp.go:39-48 | Doubling loop that reaches the ceiling exactly: 400, 800, 1600 and then 3200 ms |
| Mrp.RecvMsg | go-matter/controller/mrp.go:64-78 | New and duplicate messages, silence, and failures told apart |
| Mrp.Exchange.ExchangeRT | go-matter/controller/mrp.go:104-171 | For every course of events: stops at the first wait that may not be passed, with its outcome, and sends exactly the answers of the waits before it, which the three rows below give by receipts alone |
| Mrp.StopsOnce | go-matter/controller/mrp.go:104-171 | A course of events determines the wait at which the exchange stops |
| Mrp.ReplyIsTheFirst | go-matter/controller/mrp.go:158-169 | Succeeds with a message iff it is the first new non-acknowledgement of the exchange and nothing stopped the exchange before |
| Mrp.ResendsByReceipts | go-matter/controller/mrp.go:125-152 | For every course: the frame was sent again once for each silent wait passed and each repeat received in this exchange |
| Mrp.AcksByReceipts | go-matter/controller/mrp.go:80-93 | For every course: the acknowledgements sent are, in order, those of the repeats and new messages of other exchanges, each with the peer's counter and exchange and the role turned round; none for a mere acknowledgement |
| Mrp.EndsByReceipts | go-matter/controller/mrp.go:104-171 | How an exchange ends, by receipts: a reply, of which there was none before; no response exactly at the fifth silent wait; too many messages exactly at wait 65; or giving up, a send that failed or an unreadable arrival |
| Mrp.ExchangeIsBounded | go-matter/controller/mrp.go:104-157 | At most 65 waits and 65 sends, four of them for silence, and 9200 ms of silence; giving up for no response takes exactly 9200 ms |
| AshFrame.ComputeCrc16 | internal/zigbee/ezsp/ash/ash.go:55-68 | The bit loop gives the CRC of the bytes |
| AshFrame.ComputeRandomize | internal/zigbee/ezsp/ash/ash.go:73-85 | The loop over the shift register gives the randomised bytes |
| AshFrame.ComputeStuff | internal/zigbee/ezsp/ash/ash.go:97-107 | Reserved bytes are escaped one by one |
| AshFrame.ComputeUnstuff | internal/zigbee/ezsp/ash/ash.go:110-125 | Escapes are undone; an escape at the end is dropped without an error |
| AshFrame.RandomizeTwice | internal/zigbee/ezsp/ash/ash.go:73-85 | Randomising twice gives the bytes back |
| AshFrame.UnstuffStuff | internal/zigbee/ezsp/ash/ash.go:97-125 | Every byte string is read back from its stuffed form |
| AshFrame.StuffedIsPlain | internal/zigbee/ezsp/ash/ash.go:87-107 | No stuffed byte is a flag, cancel, substitute, XON or XOFF |
| AshFrame.CheckedIsZero | internal/zigbee/ezsp/ash/ash.go:55-68 | A frame's CRC bytes are right iff the CRC over all its bytes is zero |
| AshFrame.TwoBytesTellApart | internal/zigbee/ezsp/ash/ash.go:55-68 | From every CRC state, two different bytes and their swap lead to different states |
| AshFrame.AdjacentChangeIsDetected | internal/zigbee/ezsp/ash/ash.go:155-164 | Changing any two neighbouring bytes of an accepted unstuffed frame, CRC bytes included, always gives the CRC error |
| AshFrame.DecodeEncode | internal/zigbee/ezsp/ash/ash.go:129-192 | Every frame that the host can build is decoded to the same fields and payload |
| AshFrame.FrameDecodes | internal/zigbee/ezsp/ash/ash.go:155-192 | Every frame of either side, its control byte given bit by bit, is decoded to its fields, the codes of resets and errors and the retransmission flag included |
| AshFrame.BuiltBody | internal/zigbee/ezsp/ash/ash.go:136-150 | The host's builders put such frames on the line, never as retransmissions |
| AshFrame.NoCode | internal/zigbee/ezsp/ash/ash.go:178-190 | A reset or error that breaks off before its code is decoded with the code zero |
| AshFrame.RandomizeAt | internal/zigbee/ezsp/ash/ash.go:73-85 | Byte k of a payload is combined with byte k of the shift register's sequence, given bit by bit from 0x42 on |
| AshFrame.DocumentedSequence | internal/zigbee/ezsp/ash/ash.go:73-85 | The sequence starts with 42 21 A8 54 2A |
| AshFrame.DocumentedStuffing | internal/zigbee/ezsp/ash/ash.go:87-107 | 7E, 7D, 11, 13, 18 and 1A are sent as 7D and the byte with bit 5 turned round, every other byte as it is |
| AshFrame.ResetOnTheLine | internal/zigbee/ezsp/ash/ash_test.go:10-25 | The reset frame is C0 38 BC 7E |
| AshConn.NextSeq | internal/zigbee/ezsp/ash/conn.go:101-114 | The next sequence number modulo 8 |
| AshConn.Conn.Dispatch | internal/zigbee/ezsp/ash/conn.go:82-129 | Undecodable frames are dropped, decoded ones handed on in order, data frames acknowledged |
| AshConn.Conn.Read | internal/zigbee/ezsp/ash/conn.go:54-80 | One chunk takes the connection through the state machine over its bytes |
| AshConn.Conn.ReadAll | internal/zigbee/ezsp/ash/conn.go:54-80 | However the bytes are cut into chunks, the effect is that of their concatenation |
| AshConn.ScanFrames | internal/zigbee/ezsp/ash/conn.go:54-129 | Any list of frames of either side, one after the other, is heard completely, in order and with all fields; for each data frame among them one acknowledgement is written with the number after its own, which is then awaited |
| AshConn.FramesAfterCancel | internal/zigbee/ezsp/ash/conn.go:54-129 | After any flag-free noise and a cancel byte the same holds, however the bytes are cut into chunks |
| Spake2.TimesTimes | go-matter/spake2/spake2.go:84-105 | Scalar multiplication composes, from the laws of an Abelian group alone |
| Spake2.SameSharedPoints | go-matter/spake2/matter.go:113-158 | Prover and verifier compute the same two points from each other's shares: Z is xy times the generator, V is w1 y times it |
| Spake2.OtherScalar | go-matter/spake2/matter.go:113-158 | A share made from another scalar leads to that Z iff the difference of the two blindings vanishes under the own secret, on either side |
| Spake2.TranscriptInjective | go-matter/spake2/confirm.go:22-41 | Length-prefixed concatenation: different field lists have different transcripts |
| Spake2.KeysAgree | go-matter/spake2/matter.go:32-58 | Same passcode and context give both sides the same keys and confirmations |
| Spake2.ConfirmedMeansSameView | go-matter/spake2/matter.go:60-64 | With symbolic primitives, one matching confirmation shows equal context, shares, points and passcode scalar, and so equal keys |
| Spake2.KeyMeansSameView | go-matter/spake2/matter.go:32-58 | Without collisions of the hash's second half, equal session keys show equal context, shares, points and passcode scalar |
| PaseMessages.EncodeParamRequest | go-matter/pase/pase.go:50-59 | The encoding of the request's tree |
| PaseMessages.DecodeParamRequest | go-matter/pase/pase.go:61-103 | For every input: the last value of each field, or the first error, the length of the random value before the reader's own; what follows the structure is not looked at |
| PaseMessages.RequestReadBack | go-matter/pase/pase.go:50-103 | An encoded request is read back, whatever follows it, and the reader stops right behind it |
| PaseMessages.EncodeParamResponse | go-matter/pase/pase.go:113-127 | The encoding of the response's tree, with or without parameters |
| PaseMessages.DecodeParamResponse | go-matter/pase/pase.go:129-183 | For every input: the last value of each field, parameters only where they were read, or the first error |
| PaseMessages.ResponseReadBack | go-matter/pase/pase.go:113-183 | An encoded response is read back, whatever follows it, absent parameters staying absent |
| PaseMessages.EncodePake | go-matter/pase/pase.go:186-211 | The encoding of one or two octet strings under the tags 1 and 2 |
| PaseMessages.DecodeFields | go-matter/pase/pase.go:215-233 | For every input: the last octet string under each tag, missing ones empty, or the first error |
| PaseMessages.PakeReadBack | go-matter/pase/pase.go:186-233 | Encoded values are read back |
| Pase.DeriveW | go-matter/spake2/matter.go:74-90 | Registration scalars below the group order iff salt length and iteration count are in range |
| Pase.Initiator.ParamRequest | go-matter/pase/initiator.go:35-51 | The request is sent and remembered |
| Pase.Initiator.HandleParamResponse | go-matter/pase/initiator.go:56-84 | For every input: refused out of order, malformed, without or with bad parameters; otherwise the share for the announced parameters, and the context over both messages |
| Pase.Initiator.HandlePake2 | go-matter/pase/initiator.go:89-107 | For every input: the handshake completes iff the confirmation read matches the keys computed from the share read; nothing else changes what is done or the keys |
| Pase.Initiator.SecureSession | go-matter/pase/initiator.go:111-120 | A session only after completion, sending under the first key |
| Pase.Responder.HandleParamRequest | go-matter/pase/responder.go:43-68 | For every input: refused malformed or for another passcode; otherwise the response and the context over both messages |
| Pase.Responder.HandlePake1 | go-matter/pase/responder.go:71-93 | For every input: refused out of order, malformed or off the curve; otherwise share and confirmation for the share read |
| Pase.Responder.HandlePake3 | go-matter/pase/responder.go:98-111 | For every input: the handshake completes iff the confirmation read matches, and in no other way |
| Pase.Responder.SecureSession | go-matter/pase/responder.go:115-124 | A session only after completion, with the keys exchanged |
| Pase.HonestRun | go-matter/pase/initiator.go:35-120 | Over the real message bytes and any lawful group: both sides complete, session identifiers cross over, each sends under the key the other receives with |
| Pase.ConfirmedPasscode | go-matter/spake2/matter.go:74-90 | A confirmation that holds shows that what the derivation made of both passcodes is equal modulo the order |
| Pase.RecordOfPasscode | go-matter/spake2/matter.go:92-99 | The device's record is the other half of the derivation, reduced, times the generator |
| Pase.WrongPasscode | go-matter/pase/initiator.go:89-107 | A run with every message delivered unchanged between sides whose passcodes give different scalars: the initiator finds the confirmation wrong, and neither side completes |
| Pase.JoinedMessages | go-matter/pase/pase.go:237-243 | Of two messages hashed without a length: what the device read is the initiator's request, and the messages are the same on both sides iff nothing stood behind the request that the device received |
| Pase.ConfirmedMessages | go-matter/pase/pase.go:237-243 | Under any interference, a confirmation that holds shows that the device read the initiator's request as it was meant and that the keys agree; both parameter messages arrived unchanged iff nothing stood behind the request that the device received |
| Pase.RunTogether | go-matter/pase/pase.go:237-243 | A response moved across the boundary of the two hashed messages: the contexts agree, and each side reads what stands first |
| SigmaMessages.EncodeSigma | go-matter/casesession/sigma.go:38-94 | The encoding of a Sigma1 or Sigma2 |
| SigmaMessages.DecodeSigma | go-matter/casesession/sigma.go:49-121 | For every input: the last value of each field, or the first error |
| SigmaMessages.SigmaReadBack | go-matter/casesession/sigma.go:38-121 | An encoded Sigma1 or Sigma2 is read back, whatever follows it |
| SigmaMessages.EncodeCredentials | go-matter/casesession/sigma.go:157-167 | The encoding of certificates and signature, an absent intermediate certificate left out |
| SigmaMessages.DecodeCredentials | go-matter/casesession/sigma.go:169-190 | For every input: the last value of each field, or the first error |
| SigmaMessages.CredentialsReadBack | go-matter/casesession/sigma.go:157-190 | Encoded credentials are read back, an absent certificate as an absent one |
| SigmaMessages.SignedInjective | go-matter/casesession/sigma.go:194-205 | What is signed determines both certificates and both ephemeral keys, so a signature serves one handshake and one direction |
| Case.EncryptCredentials | go-matter/casesession/case.go:216-222 | Seals encoded credentials |
| Case.DecryptCredentials | go-matter/casesession/case.go:224-234 | For every ciphertext: the credentials in what it opens to, or the error of opening or reading |
| Case.UnsealedIsSealed | go-matter/casesession/case.go:216-234 | What was sealed opens to the same credentials, for every block function |
| Case.VerifySignature | go-matter/cert/verify.go:15-39 | Sizes of key and signature, the signed form, then the signature; what acceptance implies is stated over the signatures themselves below |
| Case.VerifyChain | go-matter/cert/verify.go:44-65 | The root signs itself and the intermediate certificate, and whichever is there signs the node's |
| Case.SigningChains | go-matter/cert/sign.go:9-20 | What a key signed passes under its public half |
| Case.Accept | go-matter/casesession/case.go:128-153 | Certificates decoded from their bytes, then chain and signature checked, in this order; acceptance means that the signatures hold: the root's over itself and the next certificate, that one's over the node's, and the node's over both ephemeral keys |
| Case.AcceptedWasIssued | go-matter/cert/verify.go:44-57 | For every input: where only the root's owner makes its signatures, accepted credentials carry a certificate, or one of an intermediate authority, that it signed; where the node makes its own, it signed both ephemeral keys in this order |
| Case.NotIssuedIsRefused | go-matter/cert/verify.go:15-57 | A certificate that the root never signed is refused as a bad chain, whatever it says and whoever presents it |
| Case.NodeTookPart | go-matter/casesession/case.go:128-153 | An accepted node that signs only in its own sessions was in one with both these keys, with the same certificates |
| Case.DestinationNames | go-matter/casesession/destid.go:27-45 | Without collisions a destination identifier determines group key, random value, root key, fabric and node |
| Case.IssuedIsAccepted | go-matter/casesession/case.go:128-153 | Credentials that a fabric issued are accepted under the signature law |
| Case.Initiator.Sigma1 | go-matter/casesession/case.go:60-86 | Sigma1 opens the transcript |
| Case.Initiator.HandleSigma2 | go-matter/casesession/case.go:89-126 | For every input: an answer is given iff the credentials inside that message are accepted over both keys and name the peer and the fabric, and then the signatures over them hold; each refusal, what is remembered in spite of it, and Sigma3 are determined |
| Case.Initiator.BuildSigma3 | go-matter/casesession/case.go:155-187 | Own credentials, signed over both keys and sealed under the transcript so far |
| Case.Initiator.SecureSession | go-matter/casesession/case.go:201-213 | Keys from shared secret and transcript, sending under the first; an error without a secret or where the own certificate does not decode |
| Case.Responder.HandleSigma1 | go-matter/casesession/responder.go:43-106 | For every input: refused malformed or off the curve; otherwise Sigma2 with sealed credentials, transcript over both messages |
| Case.Responder.HandleSigma3 | go-matter/casesession/responder.go:109-148 | For every input: completes iff the credentials inside that message are accepted over both keys, and then the signatures over them hold; remembers the node they name |
| Case.Responder.SecureSession | go-matter/casesession/responder.go:152-164 | The same keys exchanged, and the same errors |
| Case.SameSecret | go-matter/casesession/case.go:97-103 | Both ephemeral keys give one shared secret |
| Case.HonestRun | go-matter/casesession/case.go:60-213 | Over the real message bytes: both sides complete, session and node identifiers cross over, keys are equal and exchanged |
| CaseInterference.SamePart | go-matter/casesession/keys.go:27-43 | If hash and key derivation do not collide on the two inputs, one Sigma key means one secret and the same messages before it |
| CaseInterference.OpenedWasMeant | go-matter/casesession/case.go:105-116 | Under an ideal cipher, what opens was sealed by an honest session for that very transcript, with the credentials found |
| CaseInterference.Matched | go-matter/casesession/case.go:155-187 | Of two sessions with one secret each opened what the other sealed, and both first messages arrived as they were |
| CaseInterference.Interfered | go-matter/casesession/responder.go:43-148 | Whatever is delivered in place of the messages: if both accept, some responder took Sigma1 as it was sent and some initiator saw both earlier messages; if the two hold one secret, only Sigma3 can differ, identifiers cross over and the certificates name the other side |
| Verhoeff.ProductIsMul | go-matter/pase/onboarding.go:95-106 | The first table is the product of the dihedral group |
| Verhoeff.RowsCompose | go-matter/pase/onboarding.go:108-117 | Each row of the second table is the row before permuted once more, cyclically |
| Verhoeff.VerhoeffValid | go-matter/pase/onboarding.go:120-128 | True iff the product over all digits is the identity |
| Verhoeff.SingleDigit | go-matter/pase/onboarding.go:120-128 | Every change of one digit breaks a valid code of any length |
| Verhoeff.NeighboursSwapped | go-matter/pase/onboarding.go:120-128 | Every swap of two unequal neighbours breaks a valid code of any length |
| Verhoeff.OneCheckDigit | go-matter/pase/onboarding.go:120-128 | Every payload has exactly one check digit |
| ManualCode.ParseManualCode | go-matter/pase/onboarding.go:51-92 | Payload, or the error of the first check that fails |
| ManualCode.ManualRoundTrip | go-matter/pase/onboarding.go:42-92 | A printed code, grouped in any way and with or without vendor digits, is read back to its fields |
| ManualCode.ManualIsPrinted | go-matter/pase/onboarding.go:51-92 | Only codes of a payload are read as that payload |
| ManualCode.MistypedCode | go-matter/pase/onboarding.go:66-73 | A mistyped or swapped digit of an accepted code always gives the check-digit error |
| Base38.ReadGroup | go-matter/pase/onboarding.go:201-208 | The value of a group, or nothing if a character is outside the alphabet |
| Base38.Base38Decode | go-matter/pase/onboarding.go:179-216 | The bytes of all groups, or the error of the first bad one |
| Base38.Base38RoundTrip | go-matter/pase/onboarding.go:179-216 | Every byte string is read back from its text |
| Base38.Base38Exact | go-matter/pase/onboarding.go:201-213 | A text that is read is the one printed for its bytes iff no group exceeds what its bytes hold; the code drops such excess |
| Base38.ExcessIsRead | go-matter/pase/onboarding.go:201-213 | A concrete text in excess that is read although no bytes are printed so |
| QrCode.BitReader.Read | go-matter/pase/onboarding.go:226-243 | The next field, least significant bit first and truncated to 32 bits; reading past the end fails for good |
| QrCode.FieldRoundTrip | go-matter/pase/onboarding.go:226-243 | For every layout, every field is read back, whatever bytes follow |
| QrCode.ParseQRCode | go-matter/pase/onboarding.go:137-175 | Payload, or the error of the first check that fails |
| QrCode.QrRoundTrip | go-matter/pase/onboarding.go:137-175 | Every payload is read back from its code, also with trailing data |
| OnboardingCodes.QrByPlace | go-matter/pase/onboarding.go:137-175 | For all bytes: the fields of a QR code are the parts of one little-endian number, by division: version, vendor, product, flow, capabilities, discriminator and passcode from the lowest bit up |
| OnboardingCodes.ValueIsPlace | go-matter/pase/onboarding.go:132 | The value of a base-38 symbol is its place in the alphabet, and nothing else has a value |
| OnboardingCodes.KnownQrCode | go-matter/pase/onboarding_test.go:8-14 | The code of the Matter SDK's test payload is read as passcode 20202021, discriminator 3840, vendor FFF1 and product 8000 |
| OnboardingCodes.KnownManualCode | go-matter/pase/onboarding_test.go:8-14 | So is its manual code, grouped or not, with the four high bits of the discriminator |
| Transfers.FinPairs | planner/internal/store/finance_import.go:359-391 | The pairing found is valid and cannot be extended; on rows sorted by time no pairing of any kind has more pairs |
| Transfers.FindPartner | planner/internal/store/finance_import.go:371-388 | The first free counterpart within ten minutes, if there is one |
| Transfers.Exchange | planner/internal/store/finance_import.go:359-391 | An optimal completion can be changed to use the greedy choice |
| Transfers.LargestPairing | planner/internal/store/finance_import.go:359-391 | When all rows are decided the greedy pairing is at least as large as every pairing |
| Transfers.PairingSize | planner/internal/store/finance_import.go:359-391 | A pairing of rows is as large as its set of receivers |
| Transfers.PairedTotalIsZero | planner/internal/store/finance_import.go:350-356 | The paired amounts sum to zero |
| Calendar.AddDaysNumber | planner/internal/store/recur.go:62-118 | Adding days adds to the day number, over month and leap-year boundaries |
| Calendar.BeforeIsLess | planner/internal/store/recur.go:62-118 | The order of dates is the order of day numbers |
| Calendar.EpochIsThursday | planner/internal/store/recur.go:121-123 | The weekday computation is anchored: 1 January 1970 is a Thursday |
| Recurrence.NextOccurrence | planner/internal/store/recur.go:62-118 | The computed date at the same time of day, or an error for a bad rule, a bad date, or a next date of 0001-01-01, which the time type takes for none |
| Recurrence.NextIsLeast | planner/internal/store/recur.go:62-118 | The result is the least later date satisfying the rule; for monthly rules iff the month has no occurrence left |
| Recurrence.MonthSkipped | planner/internal/store/recur.go:100-106 | Monthly on the 15th, from the 10th of a month: the 15th of that month is left out |
| Recurrence.ExpandedThenNext | planner/internal/store/recur.go:169-193 | From a due date whose rule was expanded from it, the result is always the least later occurrence |
| Recurrence.MonthlyDoesNotDrift | planner/internal/store/recur.go:100-106 | The n-th occurrence of a rule for the 29th to 31st is clamped in its own month only |
| Recurrence.YearlyDoesNotDrift | planner/internal/store/recur.go:107-113 | The n-th occurrence of a 29 February rule is clamped in its own year only |
| Recurrence.BareKinds | planner/internal/store/recur.go:169-193 | A rule entered without its day, for any number of completions: weekly is the day k weeks later, monthly the same day of the k-th next month and yearly of the k-th next year, both clamped |
| Positions.Delete | planner/internal/store/cards.go:505-528 | Deleting a row and closing the gap keeps positions 0 to n-1 in every group |
| Positions.Insert | planner/internal/store/cards.go:342-348 | Opening a gap and placing a row keeps positions 0 to n-1 in every group |
| Positions.Move | planner/internal/store/cards.go:299-376 | The statements of a move amount to removal and insertion, also within one group |
| Positions.MoveKeepsOtherOrders | planner/internal/store/cards.go:299-376 | The row is at the clamped index and all others keep their relative order in every group |
| Positions.CountRows | planner/internal/store/cards.go:331-335 | The number of rows of a group is the length of its order |
| CardChains.SpawnedKeepsSpan | planner/internal/store/cards.go:483-502 | The next card is due later and spans the same number of days |
| CardChains.Spawn | planner/internal/store/cards.go:420-480 | Completing a recurring card keeps the chain invariant |
| CardChains.OneRuleAChain | planner/internal/store/cards.go:420-480 | Of two cards of a chain at most one carries a rule, their dues differ and respect the last date, their spans are equal |
| CardSteps.Checked | planner/internal/store/cards.go:612-631 | An accepted card satisfies what recurrence relies on, in the place given |
| CardSteps.AcceptedIsKept | planner/internal/store/cards.go:40-124 | An accepted card has exactly the due date, end and last date entered, and the rule entered, or the one that a bare kind stands for |
| CardSteps.AcceptedInputs | planner/internal/store/cards.go:612-631 | An input is accepted iff its dates are valid, the end is not before the due date, and a rule is complete and valid or to be filled in from a due date |
| CardSteps.DueOrder | planner/internal/store/cards.go:40-124 | Of two dues exactly one comes first unless they are the same, and a date comes before its times of day |
| CardSteps.SeriesOfACreation | planner/internal/store/cards.go:40-502 | In every run that contains a creation: each card of its series has the last date entered, lies within it unless due as entered, keeps the time of day, and carries the rule of the creation or none |
| CardSteps.DescendantsOfACreation | planner/internal/store/cards.go:420-502 | Every descendant of a created card by completions is due later, within the last date entered, and carries the rule of the creation or none |
| CardStore.NextPosition | planner/internal/store/cards.go:103-112 | One past the last position of the group |
| CardStore.Store.CreateCard | planner/internal/store/cards.go:40-124 | Appends the card as `BoardLists.CardAdded` and `CardSteps.AcceptedIsKept` say, starting a chain, or changes nothing, with the error of the input before that of the column |
| CardStore.Store.DeleteCard | planner/internal/store/cards.go:505-528 | Takes the card out, closes the gap, and leaves its children without a parent |
| CardStore.Store.MoveCard | planner/internal/store/cards.go:299-376 | Refuses missing cards and other boards; otherwise removes, inserts at the clamped index and may spawn; a spawning that fails takes everything back |
| CardStore.Store.SpawnNextOccurrence | planner/internal/store/cards.go:420-480 | Spawns only into the last of several columns and not past the last date; the new card has the completed one for a parent and joins its chain; an error where the next date is not found |
| CardStore.Store.AddColumn | planner/internal/store/boards.go:204-235 | Appends an empty column to a board that exists |
| CardStore.Store.DeleteColumn | planner/internal/store/boards.go:255-278 | Drops the column with its cards and closes the gap; children of dropped cards are left without a parent |
| CardStore.Store.CreateBoard | planner/internal/store/boards.go:86-112 | A new board with its columns at consecutive positions from 0 |
| CardSteps.ThreeColumns | planner/internal/store/boards.go:86-112 | A new board has three empty columns at the positions 0 to 2, and nothing else changes |
| CardSteps.StepKeeps | planner/internal/store/cards.go:40-528 | Every operation on boards, columns and cards keeps positions dense in every group, chains linked and families in order |
| BoardLists.ColumnAdded | planner/internal/store/boards.go:204-235 | On the lists that a board shows: one more empty column at the end, or no change |
| BoardLists.BoardAdded | planner/internal/store/boards.go:86-112 | A new board with the given columns in order, all empty, or no change |
| BoardLists.ColumnDropped | planner/internal/store/boards.go:255-278 | The column leaves the list of its board and its cards are gone; nothing else changes |
| BoardLists.CardAdded | planner/internal/store/cards.go:40-124 | An accepted card stands at the end of its column with what was entered on it; nothing else changes |
| BoardLists.CardDropped | planner/internal/store/cards.go:505-528 | The card leaves the list of its column and is gone; nothing else changes |
| BoardLists.CardMoved | planner/internal/store/cards.go:299-480 | The card is taken out of its list and put in at the clamped index. A recurring card that so comes into the last of several columns loses its rule, and unless the last date is past a new card with the rule, the next date and the moved end stands last in the first column; a next date that is not found takes everything back |
| BoardLists.MoveRefused | planner/internal/store/cards.go:299-330 | Anything else than moving a card within its board changes nothing |
| BoardLists.LinksAreKept | planner/internal/store/cards.go:420-528 | Every operation keeps the parents of cards that both stay, adds one only for a completion, and leaves the cards in their chains |
| CardChains.ZeroDateIsMissed | planner/internal/store/recur.go:114-116 | A next date is refused only for due dates of the year 0, and a daily rule at its last day is such a case |
| CardSteps.FirstCompletion | planner/internal/store/cards.go:420-480 | A recurring card that comes into the last column gets the next occurrence for a child, in its own chain, unless the last date is past or the next date is not found, exactly where that is 0001-01-01 |
| CardSteps.CompletionsInARow | planner/internal/store/cards.go:420-480 | After any sequence of operations: of two cards linked by completions through recur_parent_id only the later can carry a rule, it is due later but within the last date, at the same time, spans as many days; no card has two successors |
| CardSteps.ChainsOfRuns | planner/internal/store/cards.go:420-528 | After any sequence of operations, deletions in between included: of two cards of one chain one precedes the other |
| LoginLimiter.LoginStore.CheckLogin | planner/internal/store/login.go:33-56 | The first key that has to wait decides |
| LoginLimiter.CheckIsAllKeys | planner/internal/store/login.go:33-56 | Let through iff no key of the attempt has to wait; a wait is positive |
| LoginLimiter.LoginStore.BumpWindow | planner/internal/store/login.go:121-139 | One more in the window, or the first of a new one |
| LoginLimiter.LoginStore.BumpUnknown | planner/internal/store/login.go:142-156 | One more unknown name, locking the address from the third on, as `LoginLimiter.UnknownsShutAddress` says over runs |
| LoginLimiter.LoginStore.RecordAttempt | planner/internal/store/login.go:69-118 | Address window, unknown names and account failures in one transaction |
| LoginLimiter.LoginStore.PurgeLoginAttempts | planner/internal/store/login.go:159-167 | Drops rows that are neither locked nor in a window, and says how many |
| LoginLimiter.AttemptsAreLimited | planner/internal/store/login.go:33-139 | In every run with purges anywhere, an address gets at most 20 attempts a window, at most 40 in any closed 15 minutes and at most 39 in less |
| LoginLimiter.LockHolds | planner/internal/store/login.go:46-48 | Until a lock is over, every attempt on its key is refused and nothing lifts it, purges included |
| LoginLimiter.FailureShutsAccount | planner/internal/store/login.go:94-116 | From the fifth failure on, no attempt on the account gets through before the step for its count is over |
| LoginLimiter.Decided | planner/internal/store/login.go:33-139 | In every run with purges anywhere, an attempt gets through iff, by the attempts that got through before alone, neither its account nor its address is shut and its address's window is not full |
| LoginLimiter.UnknownsShutAddress | planner/internal/store/login.go:142-156 | In every run, after the third unknown name that an address gets through with since it was last forgotten, and after every one behind it, no attempt of the address gets through for an hour |
| LoginLimiter.FailuresShutAccount | planner/internal/store/login.go:86-116 | In every run, failures count from the last success; after the fifth no attempt on the account gets through for one minute, after the sixth for five, the seventh for fifteen and every later one for sixty |
| LoginLimiter.WaitRunsDown | planner/internal/store/login.go:33-56 | The wait that is reported is positive and runs down as time passes; when it is over the lock is too |
| RfQueue.Driver.Add | internal/rf/driver.go:159-166 | Supersedes the waiting command or queues the device; the queue stays orderly |
| RfQueue.Driver.Signal | internal/rf/driver.go:166-170 | A token is in the slot afterwards |
| RfQueue.Driver.Pop | internal/rf/driver.go:172-183 | Front command and the rest of the queue, which stays orderly |
| RfQueue.ServedInTurn | internal/rf/driver.go:159-183 | A device behind k others is at the front after k pops, with its latest command, whatever was added meanwhile |
| RfQueue.EveryCommandAccounted | internal/rf/driver.go:159-183 | Every command is waiting, was transmitted or was superseded: the numbers add up over every run |
| RfQueue.NoWakeupLost | internal/rf/driver.go:134-170 | In every interleaving: if the loop waits and a command is queued, a token is there or a signal is pending |
| RfQueue.QuietMeansDone | internal/rf/driver.go:134-157 | If neither callers nor loop can act, the queue is empty or the loop was told to stop |
| RfQueue.RunIsSerial | internal/rf/driver.go:134-183 | The queue of an interleaved run is that of its operations one after the other |
| RfQueue.LoopServesInTurn | internal/rf/driver.go:134-183 | In every interleaving the loop's next pop after k pops sends the k-th device's latest command |
| StockLedger.Store.Count | planner/internal/store/babyfood.go:1119-1147 | Sets quantity, day and latest batch, or refuses a missing or overlong name, a quantity out of range or an unknown ingredient |
| StockLedger.Store.AddBatch | planner/internal/store/babyfood.go:1150-1186 | Enters a batch with its note under a new highest identifier, adding the ingredient if need be; refuses a missing or overlong name, a quantity out of range and a note of more than 200 characters, in this order |
| StockLedger.Store.CountItemsByDay | planner/internal/store/babyfood.go:1071-1092 | Each day once, with sums that match the items of the plan |
| StockLedger.Store.StockLine | planner/internal/store/babyfood.go:964-1039 | Need, used, made, stock and amount to make; stock unknown without a count |
| StockLedger.StockIsLedger | planner/internal/store/babyfood.go:1006-1022 | In every run of counts, batches and midnights the derived stock is the balance of a ledger kept day by day |
| StockLedger.EatenIsCount | planner/internal/store/babyfood.go:1071-1092 | What counts as eaten between two days is the number of plan rows with that name on those days |
| StockLedger.OtherItemsLeaveLine | planner/internal/store/babyfood.go:964-1039 | Items of other ingredients, wherever they are in the plan, leave stock, need and amount to make as they are |
| StockLedger.OtherIngredients | planner/internal/store/babyfood.go:1119-1186 | Counts and batches of another ingredient leave stock and amount to make as they are |
| StockLedger.UsedAndNeeded | planner/internal/store/babyfood.go:962-988 | Used and needed days do not overlap and together are the days from the count, or from today, to the horizon |
| StockLedger.MakingIsEnough | planner/internal/store/babyfood.go:1006-1026 | Making the amount asked lasts through the horizon with nothing left over, except that after a count of today today's items are left: the list wants them again although the count stands for the end of its day |
| StockLedger.MadeForACountedDay | planner/internal/store/babyfood.go:1006-1026 | A concrete count of today after which one portion too many is made |

## Left out

- AES, SHA-256, HKDF, HMAC, PBKDF2, ECDSA and P-256 themselves: they are parameters, with the laws that the proofs use (an
  Abelian group, verification of own signatures). Symbolic injectivity is assumed only where a lemma says so. No secrecy is claimed.
- Random numbers, clocks, database identifiers, transports, contexts and the serial port: parameters of the methods.
- Session.Secure.Encrypt: the AEAD of `Session` and `Network` is ideal, a log of what was sealed; `Ccm` treats the real mode separately.
- Ccm.Aead.SealTo: the panics of the source on a wrong nonce length or an overlong message are preconditions.
- TlvWriter.Writer.PutBlob: a string is shorter than 2^64 bytes, as every Go slice is.
- Transcode.WriteElement: floats are bit patterns, and the conversion of float32 to float64 is a parameter.
- Report.DecodeReport: on an error the source also returns what it has read so far, as the other decoders do; the model returns the error alone.
- Certificate.Encode: strings are shorter than 2^64 bytes.
- Case.VerifySignature: the DER form in which a certificate is signed, and ECDSA itself, are parameters.
- CaseInterference.Interfered: that the cipher is ideal and that hash and key derivation do not collide is assumed of the inputs at hand; nothing confirms Sigma3, so a change in it shows only in the keys.
- Read, subscribe and status messages: flat structures and lists of paths, of the same kinds as those modelled.
- Mrp.Exchange.ExchangeRT: takes what the session made of each arrival as given; that those are genuine is `Network`'s result. The handshake's own receive loop and the exchange numbering are not modelled.
- Replay.ReplayWindow.Accept: group messages and counter rollover do not occur in the source.
- Spake2.KeysAgree: the key schedule of RFC 9383 itself, which the source keeps beside Matter's, is left out; the hash halves and confirmation keys are separate functions.
- Pase.Initiator.ParamRequest: takes 32 random bytes as given. Session keys split from one derivation are separate functions.
- Case.Initiator.Sigma1: the group key has 16 bytes and the root key 65, as the source checks on use.
- Case.Initiator.SecureSession: the source asks only for a shared secret, not for a verified peer, and so does the model.
- Case.Responder.HandleSigma1: the destination identifier is not checked, as in the source.
- ManualCode.ParseManualCode: characters outside ASCII stand for one byte here.
- AshConn.Conn.Read: retransmission, in-order delivery and the capacity of the frame channel are not part of the framing.
- RfQueue.Driver.Pop: translation of commands to topics, publishing and the cooldown times.
- Transfers.FinPairs: reading of statements, hashes and the database.
- Recurrence.NextOccurrence: rules and dates are given as parsed values, with the time of day as text; years end at 9998.
- CardStore.Store.CreateCard: titles, priorities, labels and archiving; positions count archived cards as in the source.
- CardStore.Store.CreateBoard: the names of board and columns; renaming and deleting a board.
- CardStore.Store.MoveCard: rewards, completion times and column names.
- UpdateCard, which can put a rule back on a card or change its due date, is not among the operations of a run.
- LoginLimiter.AttemptsAreLimited: attempts are checked and recorded one after the other at one time each; times in whole seconds.
- StockLedger.Store.AddBatch: name and note already trimmed; the day and the user are not kept.
- StockLedger.Store.StockLine: one ingredient at a time, the horizon already checked, the name already trimmed; the grouping query is a loop.
- StockLedger.StockIsLedger: the meal plan is fixed during the run, and batches are not deleted one by one.
- Import of Notion and BabyTime data, finance overview, notifications, media, automation rules and all user interface code.
