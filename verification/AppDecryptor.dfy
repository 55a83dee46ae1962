/** Streaming decryption of a content file (core/nus/app_decryptor.py). */
module AppDecryptor {
  import opened Bytes
  import opened LocalStore
  import Cbc

  datatype DecryptError = BadKeyLength | BadIndexLength | BadBlockSize | SourceMissing | NotBlockAligned

  /** The chaining start of a content: its two index bytes, then fourteen zero bytes. */
  function ContentIv(index: seq<byte>): Cbc.Block
    requires |index| == 2
  {
    index + Zeros(14)
  }

  /** A CBC decryptor object: it buffers what does not yet fill a block. */
  class CbcDecryptor {
    const cipher: Cbc.BlockCipher
    const key: Cbc.Block
    var chain: Cbc.Block
    var pending: seq<byte>

    constructor (cipher: Cbc.BlockCipher, key: Cbc.Block, iv: Cbc.Block)
      ensures this.cipher == cipher && this.key == key
      ensures chain == iv && pending == []
    {
      this.cipher, this.key := cipher, key;
      chain, pending := iv, [];
    }

    method Update(data: seq<byte>) returns (out: seq<byte>)
      modifies this
      ensures var all := old(pending) + data;
              var whole := |all| - |all| % 16;
              && pending == all[whole..]
              && out == Cbc.Decrypt(cipher, key, old(chain), all[..whole])
              && chain == Cbc.Chain(old(chain), all[..whole])
      ensures old(pending) == [] && |data| % 16 == 0 ==>
                pending == [] && out == Cbc.Decrypt(cipher, key, old(chain), data)
                    && chain == Cbc.Chain(old(chain), data)
    {
      var all := pending + data;
      var whole := |all| - |all| % 16;
      out := Cbc.Decrypt(cipher, key, chain, all[..whole]);
      chain := Cbc.Chain(chain, all[..whole]);
      pending := all[whole..];
      assert old(pending) == [] && |data| % 16 == 0 ==> all == data && all[..whole] == data;
    }

    /** True when nothing is left in the buffer; otherwise the library raises. */
    method Finalize() returns (ok: bool)
      ensures ok <==> pending == []
    {
      ok := pending == [];
    }
  }

  /** Why a call is refused, in the order the checks are made. */
  function Refusal(files: Files, src: LocalName, key: seq<byte>, index: seq<byte>,
                   blockSize: int): Option<DecryptError> {
    if |key| != 16 then Some(BadKeyLength)
    else if |index| != 2 then Some(BadIndexLength)
    else if blockSize <= 0 || blockSize % 16 != 0 then Some(BadBlockSize)
    else if src !in files then Some(SourceMissing)
    else if |files[src]| % 16 != 0 then Some(NotBlockAligned)
    else None
  }

  /** What the next read returns. */
  function NextRead(source: seq<byte>, position: nat, blockSize: nat): (chunk: seq<byte>)
    requires position < |source| && position % 16 == 0
    requires |source| % 16 == 0 && blockSize > 0 && blockSize % 16 == 0
    ensures 0 < |chunk| && |chunk| % 16 == 0 && (position + |chunk|) % 16 == 0
    ensures position + |chunk| <= |source| && chunk == source[position..position + |chunk|]
  {
    ChunkAligned(position, blockSize, |source|);
    source[position..Min(position + blockSize, |source|)]
  }

  lemma ChunkAligned(position: nat, blockSize: nat, size: nat)
    requires position <= size
    requires position % 16 == 0 && blockSize % 16 == 0 && size % 16 == 0
    ensures (Min(position + blockSize, size) - position) % 16 == 0
  {
  }

  /** Decrypting one more chunk from the chaining value reached so far extends the plaintext of the whole file. */
  lemma NextChunk(c: Cbc.BlockCipher, key: Cbc.Block, iv: Cbc.Block, source: seq<byte>, position: nat, chunk: seq<byte>)
    requires position + |chunk| <= |source| && chunk == source[position..position + |chunk|]
    requires position % 16 == 0 && |chunk| % 16 == 0
    ensures Cbc.Decrypt(c, key, iv, source[..position]) + Cbc.Decrypt(c, key, Cbc.Chain(iv, source[..position]), chunk)
         == Cbc.Decrypt(c, key, iv, source[..position + |chunk|])
    ensures Cbc.Chain(Cbc.Chain(iv, source[..position]), chunk) == Cbc.Chain(iv, source[..position + |chunk|])
  {
    Cbc.DecryptConcat(c, key, iv, source[..position], chunk);
    assert source[..position] + chunk == source[..position + |chunk|];
  }

  method DecryptApp(dir: WorkDir, src: LocalName, dest: LocalName, cipher: Cbc.BlockCipher,
                    key: seq<byte>, index: seq<byte>, blockSize: int)
    returns (r: Result<nat, DecryptError>)
    requires src != dest
    modifies dir`files
    ensures var refusal := Refusal(old(dir.files), src, key, index, blockSize);
            if refusal.Some? then
              r == Err(refusal.value) && dir.files == old(dir.files)
            else
              && r == Ok(|old(dir.files)[src]|)
              && dir.files == old(dir.files)[dest := Cbc.Decrypt(cipher, key, ContentIv(index), old(dir.files)[src])]
  {
    if |key| != 16 { return Err(BadKeyLength); }
    if |index| != 2 { return Err(BadIndexLength); }
    if blockSize <= 0 || blockSize % 16 != 0 { return Err(BadBlockSize); }
    if src !in dir.files { return Err(SourceMissing); }
    var source := dir.files[src];
    if |source| % 16 != 0 { return Err(NotBlockAligned); }

    var written := StreamDecrypt(dir, source, dest, cipher, key, ContentIv(index), blockSize);
    return Ok(written);
  }

  /** The read, decrypt and write loop over a source that was opened for reading. */
  method StreamDecrypt(dir: WorkDir, source: seq<byte>, dest: LocalName, cipher: Cbc.BlockCipher,
                       key: Cbc.Block, iv: Cbc.Block, blockSize: nat)
    returns (written: nat)
    requires |source| % 16 == 0 && blockSize > 0 && blockSize % 16 == 0
    modifies dir`files
    ensures written == |source|
    ensures dir.files == old(dir.files)[dest := Cbc.Decrypt(cipher, key, iv, source)]
  {
    var decryptor := new CbcDecryptor(cipher, key, iv);
    var position: nat := 0;
    written := 0;
    dir.files := dir.files[dest := []];
    while position < |source|
      invariant position <= |source| && position % 16 == 0
      invariant decryptor.cipher == cipher && decryptor.key == key
      invariant decryptor.pending == [] && decryptor.chain == Cbc.Chain(iv, source[..position])
      invariant dir.files == old(dir.files)[dest := Cbc.Decrypt(cipher, key, iv, source[..position])]
      invariant written == position
    {
      var chunk := NextRead(source, position, blockSize);
      var decrypted := decryptor.Update(chunk);
      NextChunk(cipher, key, iv, source, position, chunk);
      ghost var was := dir.files[dest];
      dir.files := dir.files[dest := dir.files[dest] + decrypted];
      Overwritten(old(dir.files), dest, was, dir.files[dest]);
      written := written + |decrypted|;
      position := position + |chunk|;
    }
    assert source[..position] == source;
    var done := decryptor.Finalize();
    assert done;
  }

  /** The runner's truncation of a decrypted file to the record size (apps/worker/runner.py:187-190). */
  function Truncated(plain: seq<byte>, size: nat): (t: seq<byte>)
    ensures t <= plain && |t| == Min(size, |plain|)
  {
    if size < |plain| then plain[..size] else plain
  }

  /** Decrypting a ciphertext that was cut at a block boundary yields the plaintext cut at the same place. */
  lemma CutCiphertextDecrypts(c: Cbc.BlockCipher, key: Cbc.Block, iv: Cbc.Block, plain: seq<byte>, n: nat)
    requires Cbc.Inverts(c)
    requires |plain| % 16 == 0 && n % 16 == 0 && n <= |plain|
    ensures Cbc.Decrypt(c, key, iv, Cbc.Encrypt(c, key, iv, plain)[..n]) == plain[..n]
  {
    Cbc.DecryptUndoesEncrypt(c, key, iv, plain);
    Cbc.DecryptPrefix(c, key, iv, Cbc.Encrypt(c, key, iv, plain), n);
  }

  /** A plaintext padded to whole blocks comes back exactly after decryption and truncation. */
  lemma PaddedPlaintextRecovered(c: Cbc.BlockCipher, key: Cbc.Block, iv: Cbc.Block, plain: seq<byte>,
                                 padding: seq<byte>)
    requires Cbc.Inverts(c)
    requires |plain + padding| % 16 == 0
    ensures Truncated(Cbc.Decrypt(c, key, iv, Cbc.Encrypt(c, key, iv, plain + padding)), |plain|) == plain
  {
    Cbc.DecryptUndoesEncrypt(c, key, iv, plain + padding);
  }
}
