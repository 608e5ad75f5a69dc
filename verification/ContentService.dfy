/** The content server's file handlers, and the stub that streams files to and from it in chunks. */
module ContentServices {
  import opened Prelude
  import opened ContentManifests

  datatype Status = OK | INVALID_ARGUMENT | NOT_FOUND | ALREADY_EXISTS

  /** A message of the create and update streams: the file's name, a piece of it, or neither. */
  datatype Message = FileInfo(path: Path) | FileChunk(data: seq<bv8>) | Empty

  const CHUNK_SIZE: nat := 64 * 1024

  // ----- Chunks -----

  function Joined(chunks: seq<seq<bv8>>): seq<bv8> {
    if chunks == [] then [] else Joined(chunks[..|chunks| - 1]) + chunks[|chunks| - 1]
  }

  /** Every chunk but the last is full and none is empty. */
  ghost predicate Packed(chunks: seq<seq<bv8>>) {
    && (forall k :: 0 <= k < |chunks| - 1 ==> |chunks[k]| == CHUNK_SIZE)
    && (chunks != [] ==> 0 < |chunks[|chunks| - 1]| <= CHUNK_SIZE)
  }

  /** An input stream over `data`: a read past the end comes up short and sets the fail bit. */
  class InStream {
    const data: seq<bv8>
    var pos: nat
    var fail: bool

    constructor (data: seq<bv8>)
      ensures this.data == data && pos == 0 && !fail
    {
      this.data, pos, fail := data, 0, false;
    }

    method Read(n: nat) returns (block: seq<bv8>)
      requires pos <= |data| && !fail
      modifies this
      ensures old(pos) <= pos <= |data| && block == data[old(pos)..pos]
      ensures pos == if old(pos) + n <= |data| then old(pos) + n else |data|
      ensures fail <==> old(pos) + n > |data|
    {
      fail := pos + n > |data|;
      block := if fail then data[pos..] else data[pos..pos + n];
      pos := pos + |block|;
    }
  }

  ghost predicate AllFull(chunks: seq<seq<bv8>>) {
    forall k :: 0 <= k < |chunks| ==> |chunks[k]| == CHUNK_SIZE
  }

  lemma {:induction false} Appended(chunks: seq<seq<bv8>>, block: seq<bv8>)
    requires AllFull(chunks) && 0 < |block| <= CHUNK_SIZE
    ensures Joined(chunks + [block]) == Joined(chunks) + block && Packed(chunks + [block])
    ensures |block| == CHUNK_SIZE ==> AllFull(chunks + [block])
  {
    assert (chunks + [block])[..|chunks|] == chunks;
  }

  /** The loop that both ends send a file with. */
  method Chunks(data: seq<bv8>) returns (chunks: seq<seq<bv8>>)
    ensures Joined(chunks) == data && Packed(chunks)
    ensures |chunks| == (|data| + 65_535) / 65_536
  {
    chunks := [];
    var stream := new InStream(data);
    assert Joined(chunks) == data[..0] && Packed(chunks) && AllFull(chunks);
    hide Joined, Packed, AllFull;
    while !stream.fail
      invariant stream.data == data && stream.pos <= |data| && Joined(chunks) == data[..stream.pos] && Packed(chunks)
      invariant stream.fail ==> stream.pos == |data|
      invariant !stream.fail ==> AllFull(chunks)
      decreases !stream.fail, |data| - stream.pos
    {
      var block := stream.Read(CHUNK_SIZE);
      if |block| == 0 {
        break;
      }
      Appended(chunks, block);
      chunks := chunks + [block];
    }
    assert data[..|data|] == data;
    JoinedLength(chunks);
  }

  lemma {:induction false} JoinedLength(chunks: seq<seq<bv8>>)
    requires Packed(chunks)
    ensures chunks != [] ==> |Joined(chunks)| == (|chunks| - 1) * CHUNK_SIZE + |chunks[|chunks| - 1]|
    decreases |chunks|
  {
    if |chunks| > 1 {
      JoinedLength(chunks[..|chunks| - 1]);
    }
  }

  /** A file has only one packing, so what is sent does not depend on how the loop arrives at it. */
  lemma {:induction false} OnePacking(a: seq<seq<bv8>>, b: seq<seq<bv8>>)
    requires Packed(a) && Packed(b) && Joined(a) == Joined(b)
    ensures a == b
    decreases |a|
  {
    JoinedLength(a);
    JoinedLength(b);
    if a != [] && b != [] {
      var m, n := |a| - 1, |b| - 1;
      assert m == n by {
        SameCount(m, |a[m]|, n, |b[n]|);
      }
      assert Joined(a[..m]) == Joined(a)[..|Joined(a)| - |a[m]|];
      OnePacking(a[..m], b[..n]);
      assert a == a[..m] + [a[m]] && b == b[..n] + [b[n]];
    }
  }

  lemma {:induction false} SameCount(m: nat, r: nat, n: nat, s: nat)
    requires 0 < r <= CHUNK_SIZE && 0 < s <= CHUNK_SIZE && m * CHUNK_SIZE + r == n * CHUNK_SIZE + s
    ensures m == n && r == s
  {
  }

  // ----- The server -----

  /** The content a client's messages carry, if they are chunks only. */
  function Data(msgs: seq<Message>): Option<seq<bv8>> {
    if msgs == [] then Some([])
    else
      var front, last := Data(msgs[..|msgs| - 1]), msgs[|msgs| - 1];
      if front.Some? && last.FileChunk? then Some(front.value + last.data) else None
  }

  function Wrapped(chunks: seq<seq<bv8>>): seq<Message> {
    seq(|chunks|, k requires 0 <= k < |chunks| => FileChunk(chunks[k]))
  }

  lemma {:induction false} DataOfChunks(chunks: seq<seq<bv8>>)
    ensures Data(Wrapped(chunks)) == Some(Joined(chunks))
    decreases |chunks|
  {
    if chunks != [] {
      DataOfChunks(chunks[..|chunks| - 1]);
      assert Wrapped(chunks)[..|chunks| - 1] == Wrapped(chunks[..|chunks| - 1]);
    }
  }

  lemma {:induction false} DataStopsAt(msgs: seq<Message>, i: nat)
    requires i < |msgs| && !msgs[i].FileChunk?
    ensures Data(msgs) == None
    decreases |msgs|
  {
    if i < |msgs| - 1 {
      DataStopsAt(msgs[..|msgs| - 1], i);
    }
  }

  /** The messages that arrive before a stream breaks carry the beginning of the content. */
  lemma {:induction false} BrokenStream(msgs: seq<Message>, i: nat)
    requires Data(msgs).Some? && i <= |msgs|
    ensures Data(msgs[..i]).Some? && Data(msgs[..i]).value <= Data(msgs).value
    decreases |msgs|
  {
    if i == |msgs| {
      assert msgs[..i] == msgs;
    } else {
      BrokenStream(msgs[..|msgs| - 1], i);
      assert msgs[..|msgs| - 1][..i] == msgs[..i];
    }
  }

  /** One content directory on the server. `outside` says which paths lead out of it. */
  class ContentServer {
    const outside: Path -> bool
    const newFilePermissions: nat
    var exists_: bool
    var files: map<Path, File>

    constructor (outside: Path -> bool, newFilePermissions: nat, present: bool, files: map<Path, File>)
      ensures this.outside == outside && this.newFilePermissions == newFilePermissions
      ensures exists_ == present && this.files == files
    {
      this.outside, this.newFilePermissions, this.exists_, this.files := outside, newFilePermissions, present, files;
    }

    predicate WellFormed(path: Path) {
      path.text != "" && path.text[0] != '/' && !outside(path)
    }

    function CheckFullFilePath(path: Path, mustExist: bool): (r: Status)
      reads this
      ensures r == OK <==> WellFormed(path) && exists_ && (mustExist ==> path in files)
      ensures WellFormed(path) && r != OK ==> r == NOT_FOUND
      ensures r == INVALID_ARGUMENT <==> path.text == "" || path.text[0] == '/' || (exists_ && outside(path))
      ensures r == NOT_FOUND <==>
              && path.text != "" && path.text[0] != '/'
              && (!exists_ || (!outside(path) && mustExist && path !in files))
    {
      if path.text == "" then INVALID_ARGUMENT
      else if path.text[0] == '/' then INVALID_ARGUMENT
      else if !exists_ then NOT_FOUND
      else if outside(path) then INVALID_ARGUMENT
      else if !mustExist then OK
      else if path !in files then NOT_FOUND
      else OK
    }

    method GetFile(path: Path) returns (status: Status, chunks: seq<seq<bv8>>)
      ensures status == CheckFullFilePath(path, true)
      ensures status == OK ==> Joined(chunks) == files[path].content.bytes && Packed(chunks)
      ensures status != OK ==> chunks == []
    {
      status, chunks := CheckFullFilePath(path, true), [];
      if status != OK {
        return;
      }
      chunks := Chunks(files[path].content.bytes);
    }

    /**
     * `msgs` are the messages read until the stream ends or breaks, which the handler cannot tell apart. Nothing
     * changes unless all of them are well-formed.
     */
    method CreateFile(msgs: seq<Message>) returns (status: Status)
      modifies this
      ensures exists_ == old(exists_)
      ensures status == (if msgs == [] || !msgs[0].FileInfo? then INVALID_ARGUMENT
                         else if old(CheckFullFilePath(msgs[0].path, false)) != OK
                           then old(CheckFullFilePath(msgs[0].path, false))
                         else if msgs[0].path in old(files) then ALREADY_EXISTS
                         else if Data(msgs[1..]).None? then INVALID_ARGUMENT
                         else OK)
      ensures files == if status == OK
                       then old(files)[msgs[0].path := File(Content(Data(msgs[1..]).value), newFilePermissions)]
                       else old(files)
    {
      if msgs == [] || !msgs[0].FileInfo? {
        return INVALID_ARGUMENT;
      }
      var path := msgs[0].path;
      status := CheckFullFilePath(path, false);
      if status != OK {
        return;
      }
      if path in files {
        return ALREADY_EXISTS;
      }
      var content := ReadChunks(msgs[1..]);
      if content.None? {
        return INVALID_ARGUMENT;
      }
      files := files[path := File(Content(content.value), newFilePermissions)];
    }

    method UpdateFile(msgs: seq<Message>) returns (status: Status)
      modifies this
      ensures exists_ == old(exists_)
      ensures status == (if msgs == [] || !msgs[0].FileInfo? then INVALID_ARGUMENT
                         else if old(CheckFullFilePath(msgs[0].path, true)) != OK
                           then old(CheckFullFilePath(msgs[0].path, true))
                         else if Data(msgs[1..]).None? then INVALID_ARGUMENT
                         else OK)
      ensures files == if status == OK
                       then
                         var path := msgs[0].path;
                         old(files)[path := File(Content(Data(msgs[1..]).value), old(files)[path].permissions)]
                       else old(files)
    {
      if msgs == [] || !msgs[0].FileInfo? {
        return INVALID_ARGUMENT;
      }
      var path := msgs[0].path;
      status := CheckFullFilePath(path, true);
      if status != OK {
        return;
      }
      var content := ReadChunks(msgs[1..]);
      if content.None? {
        return INVALID_ARGUMENT;
      }
      files := files[path := files[path].(content := Content(content.value))];
    }

    method DeleteFile(path: Path) returns (status: Status)
      modifies this
      ensures exists_ == old(exists_)
      ensures status == old(CheckFullFilePath(path, true))
      ensures files == if status == OK then old(files) - {path} else old(files)
    {
      status := CheckFullFilePath(path, true);
      if status == OK {
        files := files - {path};
      }
    }

    method SetPermissions(path: Path, permissions: nat) returns (status: Status)
      modifies this
      ensures exists_ == old(exists_)
      ensures status == old(CheckFullFilePath(path, true))
      ensures files == if status == OK
              then old(files)[path := old(files)[path].(permissions := permissions)] else old(files)
    {
      status := CheckFullFilePath(path, true);
      if status == OK {
        files := files[path := files[path].(permissions := permissions)];
      }
    }
  }

  /** The reading loop of both upload handlers, over what arrives: None when a message is not a chunk. */
  method ReadChunks(msgs: seq<Message>) returns (r: Option<seq<bv8>>)
    ensures r == Data(msgs)
  {
    var content := [];
    for i := 0 to |msgs|
      invariant Data(msgs[..i]) == Some(content)
    {
      assert msgs[..i + 1][..i] == msgs[..i];
      if !msgs[i].FileChunk? {
        DataStopsAt(msgs, i);
        return None;
      }
      content := content + msgs[i].data;
    }
    assert msgs[..|msgs|] == msgs;
    return Some(content);
  }

  // ----- The client's stub -----

  class ContentServiceStub {
    const server: ContentServer

    constructor (server: ContentServer)
      ensures this.server == server
    {
      this.server := server;
    }

    method GetFile(path: Path) returns (r: Result<Content, Status>)
      ensures r == if server.CheckFullFilePath(path, true) == OK then Ok(server.files[path].content)
                   else Err(server.CheckFullFilePath(path, true))
    {
      var status, chunks := server.GetFile(path);
      if status != OK {
        return Err(status);
      }
      var content := [];
      for i := 0 to |chunks|
        invariant content == Joined(chunks[..i])
      {
        assert chunks[..i + 1][..i] == chunks[..i];
        content := content + chunks[i];
      }
      assert chunks[..|chunks|] == chunks;
      return Ok(Content(content));
    }

    method SendFile(path: Path, content: Content) returns (msgs: seq<Message>)
      ensures msgs != [] && msgs[0] == FileInfo(path) && Data(msgs[1..]) == Some(content.bytes)
    {
      var chunks := Chunks(content.bytes);
      DataOfChunks(chunks);
      msgs := [FileInfo(path)] + Wrapped(chunks);
      assert msgs[1..] == Wrapped(chunks);
    }

    /** Whatever its length, a file arrives unchanged. */
    method CreateFile(path: Path, content: Content) returns (status: Status)
      modifies server
      ensures server.exists_ == old(server.exists_)
      ensures status == if old(server.CheckFullFilePath(path, false)) != OK
              then old(server.CheckFullFilePath(path, false))
                        else if path in old(server.files) then ALREADY_EXISTS else OK
      ensures server.files == if status == OK then old(server.files)[path := File(content, server.newFilePermissions)]
                              else old(server.files)
    {
      var msgs := SendFile(path, content);
      status := server.CreateFile(msgs);
    }

    method UpdateFile(path: Path, content: Content) returns (status: Status)
      modifies server
      ensures server.exists_ == old(server.exists_)
      ensures status == old(server.CheckFullFilePath(path, true))
      ensures server.files == if status == OK
              then old(server.files)[path := old(server.files)[path].(content := content)]
                              else old(server.files)
    {
      var msgs := SendFile(path, content);
      status := server.UpdateFile(msgs);
    }
  }
}
