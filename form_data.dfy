/** The form-encoded request body of UnityTools/IO/UnityAgentFormDataType.cs:
    text accumulated in a StringBuilder, turned on demand into a MemoryStream
    holding its UTF-8 bytes. `Dispose` drops both, but only once a stream has
    been made; a disposed body throws NullReferenceException on use. */
module FormData {
  import opened Common
  import opened Utf8

  const FormContentType: string := "application/x-www-form-urlencoded"

  /** The part of `System.IO.MemoryStream` a body stream uses: its bytes, the
      read/write position, and whether it has been disposed. */
  class MemoryStream {
    var contents: seq<byte>
    var position: nat
    var disposed: bool

    constructor ()
      ensures contents == [] && position == 0 && !disposed
    {
      contents, position, disposed := [], 0, false;
    }

    /** `Write(data, 0, data.Length)`: overwrite from the position on,
        growing the stream as needed. */
    method Write(data: seq<byte>)
      requires position <= |contents|
      modifies this
      ensures position == old(position) + |data| <= |contents|
      ensures contents[..old(position)] == old(contents)[..old(position)]
      ensures contents[old(position)..position] == data
      ensures |contents| == if position < |old(contents)| then |old(contents)| else position
      ensures contents[position..] == if position < |old(contents)| then old(contents)[position..] else []
      ensures disposed == old(disposed)
    {
      var end := position + |data|;
      contents := contents[..position] + data + (if end < |contents| then contents[end..] else []);
      position := end;
    }

    /** `Seek(0, SeekOrigin.Begin)`. */
    method Rewind()
      modifies this`position
      ensures position == 0
    {
      position := 0;
    }

    method Dispose()
      modifies this`disposed
      ensures disposed
    {
      disposed := true;
    }
  }

  class UnityAgentFormDataType {
    /** `HttpContentType`, which the constructor passes to the base class. */
    const httpContentType: string := FormContentType
    /** `_stringBuilder`'s text, or None once disposed. */
    var stringBuilder: Option<string>
    var memStream: MemoryStream?

    constructor ()
      ensures stringBuilder == Some([]) && memStream == null
    {
      stringBuilder := Some([]);
      memStream := null;
    }

    /** `AppendData(data)`: append `data` with nothing in between. */
    method AppendData(data: string) returns (outcome: Outcome)
      modifies this`stringBuilder
      ensures old(stringBuilder).None? ==> outcome == Threw(NullReference) && stringBuilder == None
      ensures old(stringBuilder).Some? ==> outcome == Done && stringBuilder == Some(old(stringBuilder).value + data)
    {
      if stringBuilder.None? {
        return Threw(NullReference);
      }
      stringBuilder := Some(stringBuilder.value + data);
      outcome := Done;
    }

    /** `GetDataStream()`: a new stream holding the encoded text, positioned at
        its start. The stream is stored before the text is read, so a disposed
        body is left holding an empty stream when the call throws. */
    method GetDataStream() returns (r: Result<MemoryStream>)
      modifies this`memStream
      ensures fresh(memStream) && stringBuilder == old(stringBuilder)
      ensures old(stringBuilder).None? ==> r == Err(NullReference) && memStream.contents == [] && memStream.position == 0
      ensures old(stringBuilder).Some? ==> r.Ok? && r.value == memStream
      ensures old(stringBuilder).Some? ==>
                && memStream.contents == Encode(stringBuilder.value)
                && memStream.position == 0 && !memStream.disposed
                && Decode(memStream.contents) == Some(stringBuilder.value)
    {
      var stream := new MemoryStream();
      memStream := stream;
      if stringBuilder.None? {
        return Err(NullReference);
      }
      var stringBytes := Encode(stringBuilder.value);
      stream.Write(stringBytes);
      stream.Rewind();
      DecodeEncode(stringBuilder.value);
      r := Ok(stream);
    }

    /** `Dispose()`: a no-op until a stream has been made; then dispose it and
        drop both the stream and the text. */
    method Dispose()
      modifies this`memStream, this`stringBuilder, memStream
      ensures old(memStream) == null ==> memStream == null && stringBuilder == old(stringBuilder)
      ensures old(memStream) != null ==> memStream == null && stringBuilder == None && old(memStream).disposed
      ensures old(memStream) != null ==> old(memStream).contents == old(memStream.contents)
    {
      if memStream != null {
        memStream.Dispose();
        memStream := null;
        stringBuilder := None;
      }
    }
  }

  /** The text of a form body after appending each of `parts` in turn. */
  function Joined(parts: seq<string>): string {
    if parts == [] then [] else Joined(parts[..|parts| - 1]) + parts[|parts| - 1]
  }

  /** The bytes a form body sends are those of its parts, encoded one by one
      and laid end to end: nothing separates two appended parts. */
  lemma {:induction false} JoinedEncoding(parts: seq<string>)
    ensures Encode(Joined(parts)) == EncodedParts(parts)
    decreases |parts|
  {
    if parts != [] {
      var front := parts[..|parts| - 1];
      JoinedEncoding(front);
      EncodeConcat(Joined(front), parts[|parts| - 1]);
    }
  }

  function EncodedParts(parts: seq<string>): seq<byte> {
    if parts == [] then [] else EncodedParts(parts[..|parts| - 1]) + Encode(parts[|parts| - 1])
  }
}
