// The transmitter's test vectors, stated as lemmas about the framing model: each transfer
// the tests push becomes exactly the frames the tests pop, in order, and nothing more.
module CanTransmitVectors {
  import opened Wrappers
  import opened TransferCrc
  import opened CanTransmit

  /** The heartbeat test, first transfer: a seven-byte message from node 42 on subject 7509
      at nominal priority fills one classic CAN frame; tail `0xe0` for transfer ID 0. */
  lemma HeartbeatFrames()
    ensures TransferFrames(Can8, Message(MessageHeader(0, 0, Nominal, 7509, Some(42))),
                           [0x00, 0x00, 0x00, 0x00, 0x04, 0x78, 0x68], 0)
            == [Frame(0, 0x107d552a, [0x00, 0x00, 0x00, 0x00, 0x04, 0x78, 0x68]
                                 + [0xe0])]
  {
    var header, payload := Message(MessageHeader(0, 0, Nominal, 7509, Some(42))), [0x00, 0x00, 0x00, 0x00, 0x04, 0x78, 0x68];
    SingleFrameTransfer(Can8, header, payload, 0);
    assert CanIdOf(header, 0) == 0x107d552a;
    assert header.TransferIdOf() == 0 && header.Timestamp() == 0;
    assert PaddingLength(Can8, 7) == 0;
    assert Zeros(0) == [];
    assert TailByte(true, true, true, 0) == 0xe0;
    assert payload + Zeros(0) + [TailByte(true, true, true, 0)]
           == payload + [0xe0];
  }

  /** The heartbeat test, second transfer: transfer ID 1 changes only the tail, to `0xe1`. */
  lemma HeartbeatNextFrames()
    ensures TransferFrames(Can8, Message(MessageHeader(0, 1, Nominal, 7509, Some(42))),
                           [0x01, 0x00, 0x00, 0x00, 0x04, 0x78, 0x68], 0)
            == [Frame(0, 0x107d552a, [0x01, 0x00, 0x00, 0x00, 0x04, 0x78, 0x68]
                                 + [0xe1])]
  {
    var header, payload := Message(MessageHeader(0, 1, Nominal, 7509, Some(42))), [0x01, 0x00, 0x00, 0x00, 0x04, 0x78, 0x68];
    SingleFrameTransfer(Can8, header, payload, 0);
    assert CanIdOf(header, 0) == 0x107d552a;
    assert header.TransferIdOf() == 1 && header.Timestamp() == 0;
    assert PaddingLength(Can8, 7) == 0;
    assert Zeros(0) == [];
    assert TailByte(true, true, true, 1) == 0xe1;
    assert payload + Zeros(0) + [TailByte(true, true, true, 1)]
           == payload + [0xe1];
  }

  /** The string test on CAN FD: an anonymous message (pseudo node ID `0x6c`) on subject
      4919 with a 14-byte payload ("Hello world!" behind its length prefix) gets one zero
      byte of padding, for a 16-byte frame. */
  lemma StringFrames()
    ensures TransferFrames(CanFd64, Message(MessageHeader(0, 0, Nominal, 4919, None)),
                           [0x00, 0x18, 0x48, 0x65, 0x6c, 0x6c, 0x6f, 0x20, 0x77, 0x6f, 0x72, 0x6c, 0x64, 0x21], 0x6c)
            == [Frame(0, 0x1173376c, [0x00, 0x18, 0x48, 0x65, 0x6c, 0x6c, 0x6f, 0x20, 0x77, 0x6f, 0x72, 0x6c, 0x64, 0x21]
                                 + [0x00, 0xe0])]
  {
    var header, payload := Message(MessageHeader(0, 0, Nominal, 4919, None)), [0x00, 0x18, 0x48, 0x65, 0x6c, 0x6c, 0x6f, 0x20, 0x77, 0x6f, 0x72, 0x6c, 0x64, 0x21];
    SingleFrameTransfer(CanFd64, header, payload, 0x6c);
    assert CanIdOf(header, 0x6c) == 0x1173376c;
    assert header.TransferIdOf() == 0 && header.Timestamp() == 0;
    assert PaddingLength(CanFd64, 14) == 1;
    assert Zeros(1) == [0x00];
    assert TailByte(true, true, true, 0) == 0xe0;
    assert payload + Zeros(1) + [TailByte(true, true, true, 0)]
           == payload + [0x00, 0xe0];
  }

  /** The node-info request test: an empty request for service 430 from node 123 to node 42
      is a single frame holding only the tail byte `0xe1`. */
  lemma NodeInfoRequestFrames()
    ensures TransferFrames(Can8, Request(ServiceHeader(0, 1, Nominal, 430, 123, 42)), [], 0)
            == [Frame(0, 0x136b957b, [0xe1])]
  {
    EmptyTransfer(Can8, Request(ServiceHeader(0, 1, Nominal, 430, 123, 42)), 0);
  }

  /** The 69-byte payload of the node-info response test, seven bytes to a line: a few
      fixed fields and the name `org.uavcan.pyuavcan.demo.basic_usage`. */
  function ResponsePayload(): seq<byte>
  {
    [0x01, 0x00, 0x00, 0x00, 0x01, 0x00, 0x00]
      + ([0x00, 0x00, 0x00, 0x00, 0x00, 0x00, 0x00]
      + ([0x00, 0x00, 0x00, 0x00, 0x00, 0x00, 0x00]
      + ([0x00, 0x00, 0x00, 0x00, 0x00, 0x00, 0x00]
      + ([0x00, 0x00, 0x24, 0x6f, 0x72, 0x67, 0x2e]
      + ([0x75, 0x61, 0x76, 0x63, 0x61, 0x6e, 0x2e]
      + ([0x70, 0x79, 0x75, 0x61, 0x76, 0x63, 0x61]
      + ([0x6e, 0x2e, 0x64, 0x65, 0x6d, 0x6f, 0x2e]
      + ([0x62, 0x61, 0x73, 0x69, 0x63, 0x5f, 0x75]
      + ([0x73, 0x61, 0x67, 0x65, 0x00, 0x00])))))))))
  }

  /** The CRC of the node-info response, chunks 0 to 4: the register goes from `0xffff` to `0x9828`. */
  lemma ResponseCrc0(rest: seq<byte>)
    ensures Add(0xffff, [0x01, 0x00, 0x00, 0x00, 0x01, 0x00, 0x00] + ([0x00, 0x00, 0x00, 0x00, 0x00, 0x00, 0x00] + ([0x00, 0x00, 0x00, 0x00, 0x00, 0x00, 0x00] + ([0x00, 0x00, 0x00, 0x00, 0x00, 0x00, 0x00] + ([0x00, 0x00, 0x24, 0x6f, 0x72, 0x67, 0x2e] + rest)))))
            == Add(0x9828, rest)
  {
    AddAppend(0xffff, [0x01, 0x00, 0x00, 0x00, 0x01, 0x00, 0x00], [0x00, 0x00, 0x00, 0x00, 0x00, 0x00, 0x00] + ([0x00, 0x00, 0x00, 0x00, 0x00, 0x00, 0x00] + ([0x00, 0x00, 0x00, 0x00, 0x00, 0x00, 0x00] + ([0x00, 0x00, 0x24, 0x6f, 0x72, 0x67, 0x2e] + rest))));
    assert Add(0xffff, [0x01, 0x00, 0x00, 0x00, 0x01, 0x00, 0x00]) == 0x7e9f;
    AddAppend(0x7e9f, [0x00, 0x00, 0x00, 0x00, 0x00, 0x00, 0x00], [0x00, 0x00, 0x00, 0x00, 0x00, 0x00, 0x00] + ([0x00, 0x00, 0x00, 0x00, 0x00, 0x00, 0x00] + ([0x00, 0x00, 0x24, 0x6f, 0x72, 0x67, 0x2e] + rest)));
    assert Add(0x7e9f, [0x00, 0x00, 0x00, 0x00, 0x00, 0x00, 0x00]) == 0xbd4e;
    AddAppend(0xbd4e, [0x00, 0x00, 0x00, 0x00, 0x00, 0x00, 0x00], [0x00, 0x00, 0x00, 0x00, 0x00, 0x00, 0x00] + ([0x00, 0x00, 0x24, 0x6f, 0x72, 0x67, 0x2e] + rest));
    assert Add(0xbd4e, [0x00, 0x00, 0x00, 0x00, 0x00, 0x00, 0x00]) == 0xf2cd;
    AddAppend(0xf2cd, [0x00, 0x00, 0x00, 0x00, 0x00, 0x00, 0x00], [0x00, 0x00, 0x24, 0x6f, 0x72, 0x67, 0x2e] + rest);
    assert Add(0xf2cd, [0x00, 0x00, 0x00, 0x00, 0x00, 0x00, 0x00]) == 0xbf08;
    AddAppend(0xbf08, [0x00, 0x00, 0x24, 0x6f, 0x72, 0x67, 0x2e], rest);
    assert Add(0xbf08, [0x00, 0x00, 0x24, 0x6f, 0x72, 0x67, 0x2e]) == 0x9828;
  }

  /** The CRC of the node-info response, chunks 5 to 8: the register goes from `0x9828` to `0xb18a`. */
  lemma ResponseCrc5(rest: seq<byte>)
    ensures Add(0x9828, [0x75, 0x61, 0x76, 0x63, 0x61, 0x6e, 0x2e] + ([0x70, 0x79, 0x75, 0x61, 0x76, 0x63, 0x61] + ([0x6e, 0x2e, 0x64, 0x65, 0x6d, 0x6f, 0x2e] + ([0x62, 0x61, 0x73, 0x69, 0x63, 0x5f, 0x75] + rest))))
            == Add(0xb18a, rest)
  {
    AddAppend(0x9828, [0x75, 0x61, 0x76, 0x63, 0x61, 0x6e, 0x2e], [0x70, 0x79, 0x75, 0x61, 0x76, 0x63, 0x61] + ([0x6e, 0x2e, 0x64, 0x65, 0x6d, 0x6f, 0x2e] + ([0x62, 0x61, 0x73, 0x69, 0x63, 0x5f, 0x75] + rest)));
    assert Add(0x9828, [0x75, 0x61, 0x76, 0x63, 0x61, 0x6e, 0x2e]) == 0x83c4;
    AddAppend(0x83c4, [0x70, 0x79, 0x75, 0x61, 0x76, 0x63, 0x61], [0x6e, 0x2e, 0x64, 0x65, 0x6d, 0x6f, 0x2e] + ([0x62, 0x61, 0x73, 0x69, 0x63, 0x5f, 0x75] + rest));
    assert Add(0x83c4, [0x70, 0x79, 0x75, 0x61, 0x76, 0x63, 0x61]) == 0x1b14;
    AddAppend(0x1b14, [0x6e, 0x2e, 0x64, 0x65, 0x6d, 0x6f, 0x2e], [0x62, 0x61, 0x73, 0x69, 0x63, 0x5f, 0x75] + rest);
    assert Add(0x1b14, [0x6e, 0x2e, 0x64, 0x65, 0x6d, 0x6f, 0x2e]) == 0x2687;
    AddAppend(0x2687, [0x62, 0x61, 0x73, 0x69, 0x63, 0x5f, 0x75], rest);
    assert Add(0x2687, [0x62, 0x61, 0x73, 0x69, 0x63, 0x5f, 0x75]) == 0xb18a;
  }

  /** The transfer CRC of the node-info response is `0x9ae7`. */
  lemma ResponseCrc()
    ensures Crc16(ResponsePayload()) == 0x9ae7
  {
    ResponseCrc0([0x75, 0x61, 0x76, 0x63, 0x61, 0x6e, 0x2e] + ([0x70, 0x79, 0x75, 0x61, 0x76, 0x63, 0x61] + ([0x6e, 0x2e, 0x64, 0x65, 0x6d, 0x6f, 0x2e] + ([0x62, 0x61, 0x73, 0x69, 0x63, 0x5f, 0x75] + [0x73, 0x61, 0x67, 0x65, 0x00, 0x00]))));
    ResponseCrc5([0x73, 0x61, 0x67, 0x65, 0x00, 0x00]);
    assert Add(0xb18a, [0x73, 0x61, 0x67, 0x65, 0x00, 0x00]) == 0x9ae7;
  }

  /** The stream of the node-info response: the payload and its CRC `0x9ae7`. */
  lemma ResponseStream()
    ensures TransferStream(Can8, ResponsePayload()) == ResponsePayload() + [0x9a, 0xe7]
  {
    ResponseCrc();
    ClassicCanHasNoPadding(69);
    assert PaddedPayload(Can8, ResponsePayload()) == ResponsePayload();
  }

  /** Frames 0 to 2 of the node-info response, from the start bit on. */
  lemma ResponseFrames0(more: seq<byte>, trailer: seq<byte>)
    requires |more + trailer| > 0
    ensures Split(0, 0x126bbdaa, 1, 7,
                  [0x01, 0x00, 0x00, 0x00, 0x01, 0x00, 0x00] + ([0x00, 0x00, 0x00, 0x00, 0x00, 0x00, 0x00] + ([0x00, 0x00, 0x00, 0x00, 0x00, 0x00, 0x00] + more)) + trailer,
                  true, true)
            == [Frame(0, 0x126bbdaa, [0x01, 0x00, 0x00, 0x00, 0x01, 0x00, 0x00] + [0xa1])]
               + ([Frame(0, 0x126bbdaa, [0x00, 0x00, 0x00, 0x00, 0x00, 0x00, 0x00] + [0x01])]
               + ([Frame(0, 0x126bbdaa, [0x00, 0x00, 0x00, 0x00, 0x00, 0x00, 0x00] + [0x21])]
               + Split(0, 0x126bbdaa, 1, 7, more + trailer, false, false)))
  {
    SplitFrame(0, 0x126bbdaa, 1, 7, [0x01, 0x00, 0x00, 0x00, 0x01, 0x00, 0x00], [0x00, 0x00, 0x00, 0x00, 0x00, 0x00, 0x00] + ([0x00, 0x00, 0x00, 0x00, 0x00, 0x00, 0x00] + more), trailer, true, true, 0xa1);
    SplitFrame(0, 0x126bbdaa, 1, 7, [0x00, 0x00, 0x00, 0x00, 0x00, 0x00, 0x00], [0x00, 0x00, 0x00, 0x00, 0x00, 0x00, 0x00] + more, trailer, false, false, 0x01);
    SplitFrame(0, 0x126bbdaa, 1, 7, [0x00, 0x00, 0x00, 0x00, 0x00, 0x00, 0x00], more, trailer, false, true, 0x21);
  }

  /** Frames 3 to 5 of the node-info response. */
  lemma ResponseFrames3(more: seq<byte>, trailer: seq<byte>)
    requires |more + trailer| > 0
    ensures Split(0, 0x126bbdaa, 1, 7,
                  [0x00, 0x00, 0x00, 0x00, 0x00, 0x00, 0x00] + ([0x00, 0x00, 0x24, 0x6f, 0x72, 0x67, 0x2e] + ([0x75, 0x61, 0x76, 0x63, 0x61, 0x6e, 0x2e] + more)) + trailer,
                  false, false)
            == [Frame(0, 0x126bbdaa, [0x00, 0x00, 0x00, 0x00, 0x00, 0x00, 0x00] + [0x01])]
               + ([Frame(0, 0x126bbdaa, [0x00, 0x00, 0x24, 0x6f, 0x72, 0x67, 0x2e] + [0x21])]
               + ([Frame(0, 0x126bbdaa, [0x75, 0x61, 0x76, 0x63, 0x61, 0x6e, 0x2e] + [0x01])]
               + Split(0, 0x126bbdaa, 1, 7, more + trailer, false, true)))
  {
    SplitFrame(0, 0x126bbdaa, 1, 7, [0x00, 0x00, 0x00, 0x00, 0x00, 0x00, 0x00], [0x00, 0x00, 0x24, 0x6f, 0x72, 0x67, 0x2e] + ([0x75, 0x61, 0x76, 0x63, 0x61, 0x6e, 0x2e] + more), trailer, false, false, 0x01);
    SplitFrame(0, 0x126bbdaa, 1, 7, [0x00, 0x00, 0x24, 0x6f, 0x72, 0x67, 0x2e], [0x75, 0x61, 0x76, 0x63, 0x61, 0x6e, 0x2e] + more, trailer, false, true, 0x21);
    SplitFrame(0, 0x126bbdaa, 1, 7, [0x75, 0x61, 0x76, 0x63, 0x61, 0x6e, 0x2e], more, trailer, false, false, 0x01);
  }

  /** Frames 6 to 8 of the node-info response. */
  lemma ResponseFrames6(more: seq<byte>, trailer: seq<byte>)
    requires |more + trailer| > 0
    ensures Split(0, 0x126bbdaa, 1, 7,
                  [0x70, 0x79, 0x75, 0x61, 0x76, 0x63, 0x61] + ([0x6e, 0x2e, 0x64, 0x65, 0x6d, 0x6f, 0x2e] + ([0x62, 0x61, 0x73, 0x69, 0x63, 0x5f, 0x75] + more)) + trailer,
                  false, true)
            == [Frame(0, 0x126bbdaa, [0x70, 0x79, 0x75, 0x61, 0x76, 0x63, 0x61] + [0x21])]
               + ([Frame(0, 0x126bbdaa, [0x6e, 0x2e, 0x64, 0x65, 0x6d, 0x6f, 0x2e] + [0x01])]
               + ([Frame(0, 0x126bbdaa, [0x62, 0x61, 0x73, 0x69, 0x63, 0x5f, 0x75] + [0x21])]
               + Split(0, 0x126bbdaa, 1, 7, more + trailer, false, false)))
  {
    SplitFrame(0, 0x126bbdaa, 1, 7, [0x70, 0x79, 0x75, 0x61, 0x76, 0x63, 0x61], [0x6e, 0x2e, 0x64, 0x65, 0x6d, 0x6f, 0x2e] + ([0x62, 0x61, 0x73, 0x69, 0x63, 0x5f, 0x75] + more), trailer, false, true, 0x21);
    SplitFrame(0, 0x126bbdaa, 1, 7, [0x6e, 0x2e, 0x64, 0x65, 0x6d, 0x6f, 0x2e], [0x62, 0x61, 0x73, 0x69, 0x63, 0x5f, 0x75] + more, trailer, false, false, 0x01);
    SplitFrame(0, 0x126bbdaa, 1, 7, [0x62, 0x61, 0x73, 0x69, 0x63, 0x5f, 0x75], more, trailer, false, true, 0x21);
  }

  /** The last two frames of the node-info response: the final six payload bytes with the
      first CRC byte, then the second CRC byte alone with the end bit. */
  lemma ResponseLastFrames()
    ensures Split(0, 0x126bbdaa, 1, 7, [0x73, 0x61, 0x67, 0x65, 0x00, 0x00] + [0x9a, 0xe7], false, false)
            == [Frame(0, 0x126bbdaa, [0x73, 0x61, 0x67, 0x65, 0x00, 0x00, 0x9a] + [0x01])]
               + [Frame(0, 0x126bbdaa, [0xe7] + [0x61])]
  {
    var head, crc2: seq<byte> := [0x73, 0x61, 0x67, 0x65, 0x00, 0x00, 0x9a], [0xe7];
    assert [0x73, 0x61, 0x67, 0x65, 0x00, 0x00] + [0x9a, 0xe7] == head + [] + crc2;
    SplitFrame(0, 0x126bbdaa, 1, 7, head, [], crc2, false, false, 0x01);
    assert [] + crc2 == crc2;
    assert TailByte(false, true, true, 1) == 0x61;
    assert Split(0, 0x126bbdaa, 1, 7, [0xe7], false, true) == [Frame(0, 0x126bbdaa, [0xe7] + [0x61])];
  }

  /** Eleven frames chained one by one are the list of the eleven. */
  lemma ElevenFrames(f0: Frame, f1: Frame, f2: Frame, f3: Frame, f4: Frame, f5: Frame,
                     f6: Frame, f7: Frame, f8: Frame, f9: Frame, f10: Frame)
    ensures [f0] + ([f1] + ([f2] + ([f3] + ([f4] + ([f5] + ([f6] + ([f7] + ([f8] + ([f9] + [f10])))))))))
            == [f0, f1, f2, f3, f4, f5, f6, f7, f8, f9, f10]
  {
  }

  /** The node-info response test: the 69-byte response from node 42 to node 123 takes ten
      classic CAN frames of seven bytes and an eleventh for the second CRC byte; the CRC is
      `0x9ae7`, big-endian, and the toggle bit alternates from 1. */
  lemma NodeInfoResponseFrames()
    ensures TransferFrames(Can8, Response(ServiceHeader(0, 1, Nominal, 430, 42, 123)),
                           ResponsePayload(), 0)
            == [Frame(0, 0x126bbdaa, [0x01, 0x00, 0x00, 0x00, 0x01, 0x00, 0x00] + [0xa1]),
                Frame(0, 0x126bbdaa, [0x00, 0x00, 0x00, 0x00, 0x00, 0x00, 0x00] + [0x01]),
                Frame(0, 0x126bbdaa, [0x00, 0x00, 0x00, 0x00, 0x00, 0x00, 0x00] + [0x21]),
                Frame(0, 0x126bbdaa, [0x00, 0x00, 0x00, 0x00, 0x00, 0x00, 0x00] + [0x01]),
                Frame(0, 0x126bbdaa, [0x00, 0x00, 0x24, 0x6f, 0x72, 0x67, 0x2e] + [0x21]),
                Frame(0, 0x126bbdaa, [0x75, 0x61, 0x76, 0x63, 0x61, 0x6e, 0x2e] + [0x01]),
                Frame(0, 0x126bbdaa, [0x70, 0x79, 0x75, 0x61, 0x76, 0x63, 0x61] + [0x21]),
                Frame(0, 0x126bbdaa, [0x6e, 0x2e, 0x64, 0x65, 0x6d, 0x6f, 0x2e] + [0x01]),
                Frame(0, 0x126bbdaa, [0x62, 0x61, 0x73, 0x69, 0x63, 0x5f, 0x75] + [0x21]),
                Frame(0, 0x126bbdaa, [0x73, 0x61, 0x67, 0x65, 0x00, 0x00, 0x9a] + [0x01]),
                Frame(0, 0x126bbdaa, [0xe7] + [0x61])]
  {
    assert CanIdOf(Response(ServiceHeader(0, 1, Nominal, 430, 42, 123)), 0) == 0x126bbdaa;
    var crc := [0x9a, 0xe7];
    var f0 := Frame(0, 0x126bbdaa, [0x01, 0x00, 0x00, 0x00, 0x01, 0x00, 0x00] + [0xa1]);
    var f1 := Frame(0, 0x126bbdaa, [0x00, 0x00, 0x00, 0x00, 0x00, 0x00, 0x00] + [0x01]);
    var f2 := Frame(0, 0x126bbdaa, [0x00, 0x00, 0x00, 0x00, 0x00, 0x00, 0x00] + [0x21]);
    var f3 := Frame(0, 0x126bbdaa, [0x00, 0x00, 0x00, 0x00, 0x00, 0x00, 0x00] + [0x01]);
    var f4 := Frame(0, 0x126bbdaa, [0x00, 0x00, 0x24, 0x6f, 0x72, 0x67, 0x2e] + [0x21]);
    var f5 := Frame(0, 0x126bbdaa, [0x75, 0x61, 0x76, 0x63, 0x61, 0x6e, 0x2e] + [0x01]);
    var f6 := Frame(0, 0x126bbdaa, [0x70, 0x79, 0x75, 0x61, 0x76, 0x63, 0x61] + [0x21]);
    var f7 := Frame(0, 0x126bbdaa, [0x6e, 0x2e, 0x64, 0x65, 0x6d, 0x6f, 0x2e] + [0x01]);
    var f8 := Frame(0, 0x126bbdaa, [0x62, 0x61, 0x73, 0x69, 0x63, 0x5f, 0x75] + [0x21]);
    var f9 := Frame(0, 0x126bbdaa, [0x73, 0x61, 0x67, 0x65, 0x00, 0x00, 0x9a] + [0x01]);
    var f10 := Frame(0, 0x126bbdaa, [0xe7] + [0x61]);
    var p6 := [0x70, 0x79, 0x75, 0x61, 0x76, 0x63, 0x61] + ([0x6e, 0x2e, 0x64, 0x65, 0x6d, 0x6f, 0x2e] + ([0x62, 0x61, 0x73, 0x69, 0x63, 0x5f, 0x75] + [0x73, 0x61, 0x67, 0x65, 0x00, 0x00]));
    var p3 := [0x00, 0x00, 0x00, 0x00, 0x00, 0x00, 0x00] + ([0x00, 0x00, 0x24, 0x6f, 0x72, 0x67, 0x2e] + ([0x75, 0x61, 0x76, 0x63, 0x61, 0x6e, 0x2e] + p6));
    ResponseStream();
    assert ResponsePayload() == [0x01, 0x00, 0x00, 0x00, 0x01, 0x00, 0x00] + ([0x00, 0x00, 0x00, 0x00, 0x00, 0x00, 0x00] + ([0x00, 0x00, 0x00, 0x00, 0x00, 0x00, 0x00] + p3));
    ResponseFrames0(p3, crc);
    ResponseFrames3(p6, crc);
    ResponseFrames6([0x73, 0x61, 0x67, 0x65, 0x00, 0x00], crc);
    ResponseLastFrames();
    assert TransferFrames(Can8, Response(ServiceHeader(0, 1, Nominal, 430, 42, 123)), ResponsePayload(), 0)
      == Split(0, 0x126bbdaa, 1, 7, ResponsePayload() + crc, true, true);
    assert Split(0, 0x126bbdaa, 1, 7, ResponsePayload() + crc, true, true)
      == [Frame(0, 0x126bbdaa, [0x01, 0x00, 0x00, 0x00, 0x01, 0x00, 0x00] + [0xa1])]
      + ([Frame(0, 0x126bbdaa, [0x00, 0x00, 0x00, 0x00, 0x00, 0x00, 0x00] + [0x01])]
      + ([Frame(0, 0x126bbdaa, [0x00, 0x00, 0x00, 0x00, 0x00, 0x00, 0x00] + [0x21])]
      + ([Frame(0, 0x126bbdaa, [0x00, 0x00, 0x00, 0x00, 0x00, 0x00, 0x00] + [0x01])]
      + ([Frame(0, 0x126bbdaa, [0x00, 0x00, 0x24, 0x6f, 0x72, 0x67, 0x2e] + [0x21])]
      + ([Frame(0, 0x126bbdaa, [0x75, 0x61, 0x76, 0x63, 0x61, 0x6e, 0x2e] + [0x01])]
      + ([Frame(0, 0x126bbdaa, [0x70, 0x79, 0x75, 0x61, 0x76, 0x63, 0x61] + [0x21])]
      + ([Frame(0, 0x126bbdaa, [0x6e, 0x2e, 0x64, 0x65, 0x6d, 0x6f, 0x2e] + [0x01])]
      + ([Frame(0, 0x126bbdaa, [0x62, 0x61, 0x73, 0x69, 0x63, 0x5f, 0x75] + [0x21])]
      + ([Frame(0, 0x126bbdaa, [0x73, 0x61, 0x67, 0x65, 0x00, 0x00, 0x9a] + [0x01])] + [Frame(0, 0x126bbdaa, [0xe7] + [0x61])])))))))));
    ElevenFrames(f0, f1, f2, f3, f4, f5, f6, f7, f8, f9, f10);
  }

  /** The 94-byte payload of the array test: a length prefix and the bytes 0 to 91, the 63
      that fill the first CAN FD frame and the 31 that remain. */
  function ArrayPayload(): seq<byte>
  {
    ([0x00, 0xb8, 0x00, 0x01, 0x02, 0x03, 0x04]
      + ([0x05, 0x06, 0x07, 0x08, 0x09, 0x0a, 0x0b]
      + ([0x0c, 0x0d, 0x0e, 0x0f, 0x10, 0x11, 0x12]
      + ([0x13, 0x14, 0x15, 0x16, 0x17, 0x18, 0x19]
      + ([0x1a, 0x1b, 0x1c, 0x1d, 0x1e, 0x1f, 0x20]
      + ([0x21, 0x22, 0x23, 0x24, 0x25, 0x26, 0x27]
      + ([0x28, 0x29, 0x2a, 0x2b, 0x2c, 0x2d, 0x2e]
      + ([0x2f, 0x30, 0x31, 0x32, 0x33, 0x34, 0x35]
      + [0x36, 0x37, 0x38, 0x39, 0x3a, 0x3b, 0x3c]))))))))
    + ([0x3d, 0x3e, 0x3f, 0x40, 0x41, 0x42, 0x43]
      + ([0x44, 0x45, 0x46, 0x47, 0x48, 0x49, 0x4a]
      + ([0x4b, 0x4c, 0x4d, 0x4e, 0x4f, 0x50, 0x51]
      + ([0x52, 0x53, 0x54, 0x55, 0x56, 0x57, 0x58]
      + [0x59, 0x5a, 0x5b]))))
  }

  /** The CRC of the array test, chunks 0 to 4: the register goes from `0xffff` to `0x4333`. */
  lemma ArrayCrc0(rest: seq<byte>)
    ensures Add(0xffff, [0x00, 0xb8, 0x00, 0x01, 0x02, 0x03, 0x04] + ([0x05, 0x06, 0x07, 0x08, 0x09, 0x0a, 0x0b] + ([0x0c, 0x0d, 0x0e, 0x0f, 0x10, 0x11, 0x12] + ([0x13, 0x14, 0x15, 0x16, 0x17, 0x18, 0x19] + ([0x1a, 0x1b, 0x1c, 0x1d, 0x1e, 0x1f, 0x20] + rest)))))
            == Add(0x4333, rest)
  {
    AddAppend(0xffff, [0x00, 0xb8, 0x00, 0x01, 0x02, 0x03, 0x04], [0x05, 0x06, 0x07, 0x08, 0x09, 0x0a, 0x0b] + ([0x0c, 0x0d, 0x0e, 0x0f, 0x10, 0x11, 0x12] + ([0x13, 0x14, 0x15, 0x16, 0x17, 0x18, 0x19] + ([0x1a, 0x1b, 0x1c, 0x1d, 0x1e, 0x1f, 0x20] + rest))));
    assert Add(0xffff, [0x00, 0xb8, 0x00, 0x01, 0x02, 0x03, 0x04]) == 0x0a23;
    AddAppend(0x0a23, [0x05, 0x06, 0x07, 0x08, 0x09, 0x0a, 0x0b], [0x0c, 0x0d, 0x0e, 0x0f, 0x10, 0x11, 0x12] + ([0x13, 0x14, 0x15, 0x16, 0x17, 0x18, 0x19] + ([0x1a, 0x1b, 0x1c, 0x1d, 0x1e, 0x1f, 0x20] + rest)));
    assert Add(0x0a23, [0x05, 0x06, 0x07, 0x08, 0x09, 0x0a, 0x0b]) == 0xdec6;
    AddAppend(0xdec6, [0x0c, 0x0d, 0x0e, 0x0f, 0x10, 0x11, 0x12], [0x13, 0x14, 0x15, 0x16, 0x17, 0x18, 0x19] + ([0x1a, 0x1b, 0x1c, 0x1d, 0x1e, 0x1f, 0x20] + rest));
    assert Add(0xdec6, [0x0c, 0x0d, 0x0e, 0x0f, 0x10, 0x11, 0x12]) == 0x060b;
    AddAppend(0x060b, [0x13, 0x14, 0x15, 0x16, 0x17, 0x18, 0x19], [0x1a, 0x1b, 0x1c, 0x1d, 0x1e, 0x1f, 0x20] + rest);
    assert Add(0x060b, [0x13, 0x14, 0x15, 0x16, 0x17, 0x18, 0x19]) == 0x4559;
    AddAppend(0x4559, [0x1a, 0x1b, 0x1c, 0x1d, 0x1e, 0x1f, 0x20], rest);
    assert Add(0x4559, [0x1a, 0x1b, 0x1c, 0x1d, 0x1e, 0x1f, 0x20]) == 0x4333;
  }

  /** The CRC of the array test, chunks 5 to 7: the register goes from `0x4333` to `0xa345`. */
  lemma ArrayCrc5(rest: seq<byte>)
    ensures Add(0x4333, [0x21, 0x22, 0x23, 0x24, 0x25, 0x26, 0x27] + ([0x28, 0x29, 0x2a, 0x2b, 0x2c, 0x2d, 0x2e] + ([0x2f, 0x30, 0x31, 0x32, 0x33, 0x34, 0x35] + rest)))
            == Add(0xa345, rest)
  {
    AddAppend(0x4333, [0x21, 0x22, 0x23, 0x24, 0x25, 0x26, 0x27], [0x28, 0x29, 0x2a, 0x2b, 0x2c, 0x2d, 0x2e] + ([0x2f, 0x30, 0x31, 0x32, 0x33, 0x34, 0x35] + rest));
    assert Add(0x4333, [0x21, 0x22, 0x23, 0x24, 0x25, 0x26, 0x27]) == 0x02f7;
    AddAppend(0x02f7, [0x28, 0x29, 0x2a, 0x2b, 0x2c, 0x2d, 0x2e], [0x2f, 0x30, 0x31, 0x32, 0x33, 0x34, 0x35] + rest);
    assert Add(0x02f7, [0x28, 0x29, 0x2a, 0x2b, 0x2c, 0x2d, 0x2e]) == 0x9855;
    AddAppend(0x9855, [0x2f, 0x30, 0x31, 0x32, 0x33, 0x34, 0x35], rest);
    assert Add(0x9855, [0x2f, 0x30, 0x31, 0x32, 0x33, 0x34, 0x35]) == 0xa345;
  }

  /** The CRC of the array test, chunks 9 to 12: the register goes from `0xd670` to `0x7132`. */
  lemma ArrayCrc9(rest: seq<byte>)
    ensures Add(0xd670, [0x3d, 0x3e, 0x3f, 0x40, 0x41, 0x42, 0x43] + ([0x44, 0x45, 0x46, 0x47, 0x48, 0x49, 0x4a] + ([0x4b, 0x4c, 0x4d, 0x4e, 0x4f, 0x50, 0x51] + ([0x52, 0x53, 0x54, 0x55, 0x56, 0x57, 0x58] + rest))))
            == Add(0x7132, rest)
  {
    AddAppend(0xd670, [0x3d, 0x3e, 0x3f, 0x40, 0x41, 0x42, 0x43], [0x44, 0x45, 0x46, 0x47, 0x48, 0x49, 0x4a] + ([0x4b, 0x4c, 0x4d, 0x4e, 0x4f, 0x50, 0x51] + ([0x52, 0x53, 0x54, 0x55, 0x56, 0x57, 0x58] + rest)));
    assert Add(0xd670, [0x3d, 0x3e, 0x3f, 0x40, 0x41, 0x42, 0x43]) == 0x8760;
    AddAppend(0x8760, [0x44, 0x45, 0x46, 0x47, 0x48, 0x49, 0x4a], [0x4b, 0x4c, 0x4d, 0x4e, 0x4f, 0x50, 0x51] + ([0x52, 0x53, 0x54, 0x55, 0x56, 0x57, 0x58] + rest));
    assert Add(0x8760, [0x44, 0x45, 0x46, 0x47, 0x48, 0x49, 0x4a]) == 0xd114;
    AddAppend(0xd114, [0x4b, 0x4c, 0x4d, 0x4e, 0x4f, 0x50, 0x51], [0x52, 0x53, 0x54, 0x55, 0x56, 0x57, 0x58] + rest);
    assert Add(0xd114, [0x4b, 0x4c, 0x4d, 0x4e, 0x4f, 0x50, 0x51]) == 0x9b39;
    AddAppend(0x9b39, [0x52, 0x53, 0x54, 0x55, 0x56, 0x57, 0x58], rest);
    assert Add(0x9b39, [0x52, 0x53, 0x54, 0x55, 0x56, 0x57, 0x58]) == 0x7132;
  }

  /** The array test's payload padded for CAN FD: 14 zero bytes follow it. */
  lemma ArrayPadded()
    ensures PaddedPayload(CanFd64, ArrayPayload())
            == ([0x00, 0xb8, 0x00, 0x01, 0x02, 0x03, 0x04] + ([0x05, 0x06, 0x07, 0x08, 0x09, 0x0a, 0x0b] + ([0x0c, 0x0d, 0x0e, 0x0f, 0x10, 0x11, 0x12] + ([0x13, 0x14, 0x15, 0x16, 0x17, 0x18, 0x19] + ([0x1a, 0x1b, 0x1c, 0x1d, 0x1e, 0x1f, 0x20] + ([0x21, 0x22, 0x23, 0x24, 0x25, 0x26, 0x27] + ([0x28, 0x29, 0x2a, 0x2b, 0x2c, 0x2d, 0x2e] + ([0x2f, 0x30, 0x31, 0x32, 0x33, 0x34, 0x35] + [0x36, 0x37, 0x38, 0x39, 0x3a, 0x3b, 0x3c]))))))))
               + ([0x3d, 0x3e, 0x3f, 0x40, 0x41, 0x42, 0x43] + ([0x44, 0x45, 0x46, 0x47, 0x48, 0x49, 0x4a] + ([0x4b, 0x4c, 0x4d, 0x4e, 0x4f, 0x50, 0x51] + ([0x52, 0x53, 0x54, 0x55, 0x56, 0x57, 0x58] + [0x59, 0x5a, 0x5b]))))
               + [0, 0, 0, 0, 0, 0, 0, 0, 0, 0, 0, 0, 0, 0]
  {
    var head, tail: seq<byte> := [0x00, 0xb8, 0x00, 0x01, 0x02, 0x03, 0x04] + ([0x05, 0x06, 0x07, 0x08, 0x09, 0x0a, 0x0b] + ([0x0c, 0x0d, 0x0e, 0x0f, 0x10, 0x11, 0x12] + ([0x13, 0x14, 0x15, 0x16, 0x17, 0x18, 0x19] + ([0x1a, 0x1b, 0x1c, 0x1d, 0x1e, 0x1f, 0x20] + ([0x21, 0x22, 0x23, 0x24, 0x25, 0x26, 0x27] + ([0x28, 0x29, 0x2a, 0x2b, 0x2c, 0x2d, 0x2e] + ([0x2f, 0x30, 0x31, 0x32, 0x33, 0x34, 0x35] + [0x36, 0x37, 0x38, 0x39, 0x3a, 0x3b, 0x3c]))))))), [0x3d, 0x3e, 0x3f, 0x40, 0x41, 0x42, 0x43] + ([0x44, 0x45, 0x46, 0x47, 0x48, 0x49, 0x4a] + ([0x4b, 0x4c, 0x4d, 0x4e, 0x4f, 0x50, 0x51] + ([0x52, 0x53, 0x54, 0x55, 0x56, 0x57, 0x58] + [0x59, 0x5a, 0x5b])));
    assert ArrayPayload() == head + tail;
    assert PaddingLength(CanFd64, 94) == 14;
    var zeros: seq<byte> := [0, 0, 0, 0, 0, 0, 0, 0, 0, 0, 0, 0, 0, 0];
    assert Zeros(14) == zeros;
  }

  /** The transfer CRC of the array test, over the payload and its 14 bytes of padding, is
      `0xc048`. */
  lemma ArrayCrc()
    ensures Crc16(PaddedPayload(CanFd64, ArrayPayload())) == 0xc048
  {
    var head, tail: seq<byte> := [0x00, 0xb8, 0x00, 0x01, 0x02, 0x03, 0x04] + ([0x05, 0x06, 0x07, 0x08, 0x09, 0x0a, 0x0b] + ([0x0c, 0x0d, 0x0e, 0x0f, 0x10, 0x11, 0x12] + ([0x13, 0x14, 0x15, 0x16, 0x17, 0x18, 0x19] + ([0x1a, 0x1b, 0x1c, 0x1d, 0x1e, 0x1f, 0x20] + ([0x21, 0x22, 0x23, 0x24, 0x25, 0x26, 0x27] + ([0x28, 0x29, 0x2a, 0x2b, 0x2c, 0x2d, 0x2e] + ([0x2f, 0x30, 0x31, 0x32, 0x33, 0x34, 0x35] + [0x36, 0x37, 0x38, 0x39, 0x3a, 0x3b, 0x3c]))))))), [0x3d, 0x3e, 0x3f, 0x40, 0x41, 0x42, 0x43] + ([0x44, 0x45, 0x46, 0x47, 0x48, 0x49, 0x4a] + ([0x4b, 0x4c, 0x4d, 0x4e, 0x4f, 0x50, 0x51] + ([0x52, 0x53, 0x54, 0x55, 0x56, 0x57, 0x58] + [0x59, 0x5a, 0x5b])));
    var zeros: seq<byte> := [0, 0, 0, 0, 0, 0, 0];
    ArrayPadded();
    assert head + tail + [0, 0, 0, 0, 0, 0, 0, 0, 0, 0, 0, 0, 0, 0] == head + tail + (zeros + zeros);
    AddAppend(0xffff, head + tail, zeros + zeros);
    AddAppend(0xffff, head, tail);
    ArrayCrc0([0x21, 0x22, 0x23, 0x24, 0x25, 0x26, 0x27] + ([0x28, 0x29, 0x2a, 0x2b, 0x2c, 0x2d, 0x2e] + ([0x2f, 0x30, 0x31, 0x32, 0x33, 0x34, 0x35] + [0x36, 0x37, 0x38, 0x39, 0x3a, 0x3b, 0x3c])));
    ArrayCrc5([0x36, 0x37, 0x38, 0x39, 0x3a, 0x3b, 0x3c]);
    assert Add(0xa345, [0x36, 0x37, 0x38, 0x39, 0x3a, 0x3b, 0x3c]) == 0xd670;
    ArrayCrc9([0x59, 0x5a, 0x5b]);
    assert Add(0x7132, [0x59, 0x5a, 0x5b]) == 0x467a;
    AddAppend(0x467a, zeros, zeros);
    assert Add(0x467a, zeros) == 0xbf57;
    assert Add(0xbf57, zeros) == 0xc048;
  }

  /** The stream of the array test: the payload, 14 zero bytes of padding and the CRC
      `0xc048`, grouped as the first frame's 63 bytes and the rest. */
  lemma ArrayStream()
    ensures TransferStream(CanFd64, ArrayPayload())
            == ([0x00, 0xb8, 0x00, 0x01, 0x02, 0x03, 0x04] + ([0x05, 0x06, 0x07, 0x08, 0x09, 0x0a, 0x0b] + ([0x0c, 0x0d, 0x0e, 0x0f, 0x10, 0x11, 0x12] + ([0x13, 0x14, 0x15, 0x16, 0x17, 0x18, 0x19] + ([0x1a, 0x1b, 0x1c, 0x1d, 0x1e, 0x1f, 0x20] + ([0x21, 0x22, 0x23, 0x24, 0x25, 0x26, 0x27] + ([0x28, 0x29, 0x2a, 0x2b, 0x2c, 0x2d, 0x2e] + ([0x2f, 0x30, 0x31, 0x32, 0x33, 0x34, 0x35] + [0x36, 0x37, 0x38, 0x39, 0x3a, 0x3b, 0x3c]))))))))
               + ([0x3d, 0x3e, 0x3f, 0x40, 0x41, 0x42, 0x43] + ([0x44, 0x45, 0x46, 0x47, 0x48, 0x49, 0x4a] + ([0x4b, 0x4c, 0x4d, 0x4e, 0x4f, 0x50, 0x51] + ([0x52, 0x53, 0x54, 0x55, 0x56, 0x57, 0x58] + [0x59, 0x5a, 0x5b]))))
               + [0, 0, 0, 0, 0, 0, 0, 0, 0, 0, 0, 0, 0, 0]
               + [0xc0, 0x48]
  {
    var head, tail: seq<byte> := [0x00, 0xb8, 0x00, 0x01, 0x02, 0x03, 0x04] + ([0x05, 0x06, 0x07, 0x08, 0x09, 0x0a, 0x0b] + ([0x0c, 0x0d, 0x0e, 0x0f, 0x10, 0x11, 0x12] + ([0x13, 0x14, 0x15, 0x16, 0x17, 0x18, 0x19] + ([0x1a, 0x1b, 0x1c, 0x1d, 0x1e, 0x1f, 0x20] + ([0x21, 0x22, 0x23, 0x24, 0x25, 0x26, 0x27] + ([0x28, 0x29, 0x2a, 0x2b, 0x2c, 0x2d, 0x2e] + ([0x2f, 0x30, 0x31, 0x32, 0x33, 0x34, 0x35] + [0x36, 0x37, 0x38, 0x39, 0x3a, 0x3b, 0x3c]))))))), [0x3d, 0x3e, 0x3f, 0x40, 0x41, 0x42, 0x43] + ([0x44, 0x45, 0x46, 0x47, 0x48, 0x49, 0x4a] + ([0x4b, 0x4c, 0x4d, 0x4e, 0x4f, 0x50, 0x51] + ([0x52, 0x53, 0x54, 0x55, 0x56, 0x57, 0x58] + [0x59, 0x5a, 0x5b])));
    var zeros: seq<byte> := [0, 0, 0, 0, 0, 0, 0, 0, 0, 0, 0, 0, 0, 0];
    var crc: seq<byte> := [0xc0, 0x48];
    ArrayPadded();
    ArrayCrc();
    assert CrcBytes(0xc048) == crc;
  }

  /** Regrouping a four-part concatenation around its middle parts. */
  lemma Regroup(a: seq<byte>, b: seq<byte>, c: seq<byte>, d: seq<byte>)
    ensures a + b + c + d == a + (b + c) + d
  {
  }

  /** The array test on CAN FD: the 94-byte message from node 59 on subject 4919 fills one
      64-byte frame and leaves 31 bytes for the last, which 14 zero bytes of padding, placed
      before the CRC `0xc048`, bring to the valid length 48. */
  lemma ArrayFrames()
    ensures TransferFrames(CanFd64, Message(MessageHeader(0, 0, Nominal, 4919, Some(59))),
                           ArrayPayload(), 0)
            == [Frame(0, 0x1073373b, ([0x00, 0xb8, 0x00, 0x01, 0x02, 0x03, 0x04] + ([0x05, 0x06, 0x07, 0x08, 0x09, 0x0a, 0x0b] + ([0x0c, 0x0d, 0x0e, 0x0f, 0x10, 0x11, 0x12] + ([0x13, 0x14, 0x15, 0x16, 0x17, 0x18, 0x19] + ([0x1a, 0x1b, 0x1c, 0x1d, 0x1e, 0x1f, 0x20] + ([0x21, 0x22, 0x23, 0x24, 0x25, 0x26, 0x27] + ([0x28, 0x29, 0x2a, 0x2b, 0x2c, 0x2d, 0x2e] + ([0x2f, 0x30, 0x31, 0x32, 0x33, 0x34, 0x35] + [0x36, 0x37, 0x38, 0x39, 0x3a, 0x3b, 0x3c])))))))) + [0xa0]),
                Frame(0, 0x1073373b, (([0x3d, 0x3e, 0x3f, 0x40, 0x41, 0x42, 0x43] + ([0x44, 0x45, 0x46, 0x47, 0x48, 0x49, 0x4a] + ([0x4b, 0x4c, 0x4d, 0x4e, 0x4f, 0x50, 0x51] + ([0x52, 0x53, 0x54, 0x55, 0x56, 0x57, 0x58] + [0x59, 0x5a, 0x5b]))))
                                      + [0, 0, 0, 0, 0, 0, 0, 0, 0, 0, 0, 0, 0, 0])
                                     + [0xc0, 0x48] + [0x40])]
  {
    var head, tail: seq<byte> := [0x00, 0xb8, 0x00, 0x01, 0x02, 0x03, 0x04] + ([0x05, 0x06, 0x07, 0x08, 0x09, 0x0a, 0x0b] + ([0x0c, 0x0d, 0x0e, 0x0f, 0x10, 0x11, 0x12] + ([0x13, 0x14, 0x15, 0x16, 0x17, 0x18, 0x19] + ([0x1a, 0x1b, 0x1c, 0x1d, 0x1e, 0x1f, 0x20] + ([0x21, 0x22, 0x23, 0x24, 0x25, 0x26, 0x27] + ([0x28, 0x29, 0x2a, 0x2b, 0x2c, 0x2d, 0x2e] + ([0x2f, 0x30, 0x31, 0x32, 0x33, 0x34, 0x35] + [0x36, 0x37, 0x38, 0x39, 0x3a, 0x3b, 0x3c]))))))), [0x3d, 0x3e, 0x3f, 0x40, 0x41, 0x42, 0x43] + ([0x44, 0x45, 0x46, 0x47, 0x48, 0x49, 0x4a] + ([0x4b, 0x4c, 0x4d, 0x4e, 0x4f, 0x50, 0x51] + ([0x52, 0x53, 0x54, 0x55, 0x56, 0x57, 0x58] + [0x59, 0x5a, 0x5b])));
    var zeros: seq<byte> := [0, 0, 0, 0, 0, 0, 0, 0, 0, 0, 0, 0, 0, 0];
    var crc: seq<byte> := [0xc0, 0x48];
    assert CanIdOf(Message(MessageHeader(0, 0, Nominal, 4919, Some(59))), 0) == 0x1073373b;
    ArrayStream();
    Regroup(head, tail, zeros, crc);
    SplitFrame(0, 0x1073373b, 0, 63, head, tail + zeros, crc, true, true, 0xa0);
    assert TailByte(false, true, false, 0) == 0x40;
  }
}
