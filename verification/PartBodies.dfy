/** The bytes of a part: internal/transport/cli/command_upload.go. Every part is read from the file through a
    reader that stops after the part's length, so the parts of an accepted upload, in order, are the file. */
module PartBodies {
  import opened UploadParts
  import GoInt
  import GoText

  type Byte = bv8

  /** boundedReader over an open file; `position` is the file's own read offset. */
  class BoundedReader {
    const file: seq<Byte>
    var position: nat
    var remaining: int

    ghost predicate Valid()
      reads this
    {
      position <= |file|
    }

    /** What this reader has yet to deliver. */
    ghost function Rest(): seq<Byte>
      requires Valid()
      reads this
    {
      if remaining <= 0 then [] else if remaining <= |file| - position then file[position..position + remaining]
          else file[position..]
    }

    constructor (file: seq<Byte>, offset: nat, length: int)
      requires offset <= |file|
      ensures Valid() && this.file == file
      ensures position == offset && remaining == length
    {
      this.file := file;
      position := offset;
      remaining := length;
    }

    /** The file's own Read: it may deliver fewer bytes than there is room for, but never none before the end. */
    method ReadFile(p: array<Byte>, room: nat, want: nat) returns (n: nat, eof: bool)
      requires Valid() && room <= p.Length
      modifies this`position, p
      ensures Valid() && n <= room && position == old(position) + n
      ensures p[..n] == file[old(position)..position] && p[n..] == old(p[n..])
      ensures eof <==> old(position) == |file| && room > 0
      ensures n == 0 <==> room == 0 || old(position) == |file|
    {
      var left := |file| - position;
      var most := if room < left then room else left;
      n := if want == 0 && most > 0 then 1 else if want < most then want else most;
      eof := left == 0 && room > 0;
      ghost var start := position;
      for i := 0 to n
        invariant position == start + i
        invariant p[..i] == file[start..start + i] && p[i..] == old(p[i..])
      {
        p[i] := file[position];
        position := position + 1;
        assert p[i + 1..] == p[i..][1..] && old(p[i + 1..]) == old(p[i..])[1..];
      }
    }

    /** boundedReader.Read: it hands out the next bytes of the part, in order, and never one beyond it. */
    method Read(p: array<Byte>, want: nat) returns (n: nat, eof: bool)
      requires Valid()
      modifies this`position, this`remaining, p
      ensures Valid() && n <= p.Length && n <= |old(Rest())|
      ensures p[..n] == old(Rest())[..n] && Rest() == old(Rest())[n..]
      ensures p[n..] == old(p[n..])
      ensures eof ==> old(Rest()) == [] && n == 0
      ensures !eof && p.Length > 0 ==> n > 0
    {
      if remaining <= 0 {
        return 0, true;
      }
      var room := if p.Length > remaining then remaining else p.Length;
      n, eof := ReadFile(p, room, want);
      remaining := remaining - n;
    }
  }

  /** The HTTP client draining the reader into the request body, whatever the sizes of the single reads. */
  method Drain(reader: BoundedReader, bufferSize: nat, wants: seq<nat>) returns (body: seq<Byte>)
    requires reader.Valid() && bufferSize > 0
    modifies reader
    ensures body == old(reader.Rest())
  {
    var buffer := new Byte[bufferSize];
    ghost var whole := reader.Rest();
    body := [];
    var eof, turn := false, 0;
    while !eof
      invariant reader.Valid() && turn >= 0
      invariant |body| <= |whole| && body == whole[..|body|] && reader.Rest() == whole[|body|..]
      invariant eof ==> reader.Rest() == []
      decreases |whole| - |body|, if eof then 0 else 1
    {
      hide BoundedReader.Rest, BoundedReader.Valid;
      var n, done := reader.Read(buffer, if turn < |wants| then wants[turn] else bufferSize);
      NextBytes(whole, |body|, n);
      body := body + buffer[..n];
      eof := done;
      turn := turn + 1;
    }
  }

  lemma NextBytes(whole: seq<Byte>, from: nat, n: nat)
    requires from + n <= |whole|
    ensures whole[..from] + whole[from..][..n] == whole[..from + n] && whole[from..][n..] == whole[from + n..]
  {
  }

  /** putSinglePart's body for a byte range inside the file. */
  method PartBody(file: seq<Byte>, range: Range, bufferSize: nat, wants: seq<nat>) returns (body: seq<Byte>)
    requires 0 <= range.offset && 0 < range.length && range.offset + range.length <= |file| && bufferSize > 0
    ensures body == file[range.offset..range.offset + range.length]
  {
    var reader := new BoundedReader(file, range.offset, range.length);
    body := Drain(reader, bufferSize, wants);
  }

  predicate InFile(range: Range, size: nat) {
    0 <= range.offset && 0 < range.length && range.offset + range.length <= size
  }

  /** The object storage puts together parts 1 to n. */
  function Assembled(file: seq<Byte>, ranges: map<int, Range>, n: nat): seq<Byte>
    requires forall k | 1 <= k <= n :: k in ranges && InFile(ranges[k], |file|)
  {
    if n == 0 then []
    else
      assert InFile(ranges[n], |file|);
      Assembled(file, ranges, n - 1) + file[ranges[n].offset..ranges[n].offset + ranges[n].length]
  }

  lemma {:induction false} TilesEndInFile(ranges: map<int, Range>, total: int, size: nat, n: nat)
    requires Tiles(ranges, total, size) && 1 <= n <= total
    ensures ranges[n].offset + ranges[n].length <= size
    decreases total - n
  {
    if n < total {
      TilesEndInFile(ranges, total, size, n + 1);
    }
  }

  lemma {:induction false} TilesStartInFile(ranges: map<int, Range>, total: int, size: nat, n: nat)
    requires Tiles(ranges, total, size) && 1 <= n <= total
    ensures 0 <= ranges[n].offset
  {
    if n > 1 {
      TilesStartInFile(ranges, total, size, n - 1);
    }
  }

  lemma {:induction false} TilesAssemblePrefix(file: seq<Byte>, ranges: map<int, Range>, total: int, n: nat)
    requires Tiles(ranges, total, |file|) && 1 <= n <= total
    requires forall k | 1 <= k <= total :: InFile(ranges[k], |file|)
    ensures Assembled(file, ranges, n) == file[..ranges[n].offset + ranges[n].length]
  {
    var range := ranges[n];
    if n == 1 {
      assert Assembled(file, ranges, 0) == [];
    } else {
      TilesAssemblePrefix(file, ranges, total, n - 1);
      assert ranges[n - 1].offset + ranges[n - 1].length == range.offset;
    }
    assert file[..range.offset] + file[range.offset..range.offset + range.length] ==
        file[..range.offset + range.length];
  }

  /** Parts that tile a file have bodies that make up exactly that file. */
  lemma TilesAssembleFile(file: seq<Byte>, ranges: map<int, Range>, total: int)
    requires Tiles(ranges, total, |file|)
    ensures forall k | 1 <= k <= total :: k in ranges && InFile(ranges[k], |file|)
    ensures Assembled(file, ranges, total) == file
  {
    forall k | 1 <= k <= total ensures InFile(ranges[k], |file|) {
      TilesStartInFile(ranges, total, |file|, k);
      TilesEndInFile(ranges, total, |file|, k);
    }
    TilesAssemblePrefix(file, ranges, total, total);
    assert file[..|file|] == file;
  }

  /** A whole upload, bytes included: what the server accepts is the file. */
  method UploadBytes(file: seq<Byte>, chunkSize: int, signed: set<int>, put: set<int>, tag: int -> string,
                     bufferSize: nat, wants: seq<nat>) returns (stored: seq<Byte>, accepted: bool)
    requires 0 < |file| <= GoInt.MAX_INT64 && GoInt.IsInt64(chunkSize) && bufferSize > 0
    requires forall n <- put :: tag(n) != "" && GoText.Trimmed(tag(n))
    ensures accepted ==> stored == file
    ensures var plan := PickUploadMode(|file|, chunkSize);
            PlanFits(|file|, chunkSize) && (forall n | 1 <= n <= plan.totalParts :: n in signed && n in put) ==>
              accepted
  {
    hide PickUploadMode, PlanFits, Tiles;
    var ranges;
    accepted, ranges := UploadFile(|file|, chunkSize, signed, put, tag);
    stored := [];
    if accepted {
      var total := PickUploadMode(|file|, chunkSize).totalParts;
      TilesAssembleFile(file, ranges, total);
      TilesAreSome(ranges, total, |file|);
      for n := 1 to total + 1
        invariant stored == Assembled(file, ranges, n - 1)
      {
        var body := PartBody(file, ranges[n], bufferSize, wants);
        stored := stored + body;
      }
    }
  }

  lemma TilesAreSome(ranges: map<int, Range>, total: int, size: int)
    requires Tiles(ranges, total, size)
    ensures total >= 1
  {
  }
}
