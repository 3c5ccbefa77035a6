/**
 The emulated Kamen Rider Ride Gate as the HID layer sees it: an open/closed
 flag, transfer stubs that report every requested byte as moved, and the
 configuration descriptor request.
 */
module GateDevice {
  import opened HexFormat
  import opened GateDescriptor

  /** The outcome of a read; this device only ever reports `ReadSuccess`. */
  datatype ReadResult = ReadSuccess | ReadError

  /** The outcome of a write; this device only ever reports `WriteSuccess`. */
  datatype WriteResult = WriteSuccess | WriteError

  /** A read request: a buffer, the number of bytes asked for, and the number reported as read. */
  class ReadMessage {
    const data: array<Byte>
    const length: nat
    var bytesRead: nat

    constructor (data: array<Byte>, length: nat)
      ensures this.data == data && this.length == length && bytesRead == 0
    {
      this.data := data;
      this.length := length;
      bytesRead := 0;
    }
  }

  /** A write request: the bytes to send, their number, and the number reported as written. */
  class WriteMessage {
    const data: array<Byte>
    const length: nat
    var bytesWritten: nat

    constructor (data: array<Byte>, length: nat)
      ensures this.data == data && this.length == length && bytesWritten == 0
    {
      this.data := data;
      this.length := length;
      bytesWritten := 0;
    }
  }

  /** A report sent with SET_REPORT: the original bytes and their number. */
  class ReportMessage {
    const originalData: array<Byte>
    const originalLength: nat

    constructor (originalData: array<Byte>, originalLength: nat)
      ensures this.originalData == originalData && this.originalLength == originalLength
    {
      this.originalData := originalData;
      this.originalLength := originalLength;
    }
  }

  /** How many bytes a descriptor request copies: the caller's limit, at most the whole block. */
  function CopyLength(outputMaxLength: nat): (n: nat)
    ensures n <= BlockLength && n <= outputMaxLength
    ensures n == BlockLength || n == outputMaxLength
  {
    if outputMaxLength < BlockLength then outputMaxLength else BlockLength
  }

  class KamenRiderGateDevice {
    var isOpen: bool

    /** A new gate is closed. */
    constructor ()
      ensures !isOpen
    {
      isOpen := false;
    }

    /** Opens the gate if it is closed; opening always succeeds and leaves the gate open. */
    method Open() returns (ok: bool)
      modifies this
      ensures ok && isOpen
    {
      var wasOpen := IsOpened();
      if !wasOpen {
        isOpen := true;
      }
      ok := true;
    }

    /** Closes the gate if it is open; afterwards it is closed. */
    method Close()
      modifies this
      ensures !isOpen
    {
      var wasOpen := IsOpened();
      if wasOpen {
        isOpen := false;
      }
    }

    /** Whether the gate is open; asking changes nothing. */
    method IsOpened() returns (result: bool)
      ensures result == isOpen
    {
      result := isOpen;
    }

    /** Reports the whole requested length as read and succeeds; the buffer is left as it was. */
    method Read(message: ReadMessage) returns (result: ReadResult)
      modifies message`bytesRead
      ensures message.bytesRead == message.length && result == ReadSuccess
    {
      message.bytesRead := message.length;
      result := ReadSuccess;
    }

    /** Reports the whole length as written and succeeds. */
    method Write(message: WriteMessage) returns (result: WriteResult)
      modifies message`bytesWritten
      ensures message.bytesWritten == message.length && result == WriteSuccess
    {
      message.bytesWritten := message.length;
      result := WriteSuccess;
    }

    /**
     Copies the first min(outputMaxLength, 0x29) bytes of the configuration
     descriptor block into `output`, leaves the rest of `output` alone and
     succeeds, whatever descriptor type, index and language are asked for.
     */
    method GetDescriptor(descType: Byte, descIndex: Byte, lang: Byte,
                         output: array<Byte>, outputMaxLength: nat) returns (ok: bool)
      requires outputMaxLength < 0x1_0000_0000
      requires CopyLength(outputMaxLength) <= output.Length
      modifies output
      ensures ok
      ensures output[..CopyLength(outputMaxLength)] == DescriptorBlock()[..CopyLength(outputMaxLength)]
      ensures output[CopyLength(outputMaxLength)..] == old(output[CopyLength(outputMaxLength)..])
    {
      var configurationDescriptor := BuildConfigurationDescriptor();
      var n := CopyLength(outputMaxLength);
      var i := 0;
      while i < n
        invariant i <= n
        invariant configurationDescriptor[..] == DescriptorBlock()
        invariant output[..i] == configurationDescriptor[..i]
        invariant output[n..] == old(output[n..])
      {
        output[i] := configurationDescriptor[i];
        i := i + 1;
      }
      assert configurationDescriptor[..n] == configurationDescriptor[..][..n];
      ok := true;
    }

    /** Accepts any protocol for any interface. */
    method SetProtocol(ifIndex: Byte, protocol: Byte) returns (ok: bool)
      ensures ok
    {
      ok := true;
    }

    /** Accepts any report. */
    method SetReport(message: ReportMessage) returns (ok: bool)
      ensures ok
    {
      ok := true;
    }
  }
}
