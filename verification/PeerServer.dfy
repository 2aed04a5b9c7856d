/** The request handlers of one device: manifest, GET, PUT and DELETE of a file
    (crates/syncer-agent/src/peer_server.rs), as functions of the device. */
module PeerServer {
  import opened Wrappers
  import opened Domain
  import opened StateTables
  import opened Devices
  import opened PeerCrypto

  /** What two paired devices share: the AEAD under the transfer key, the text
      of a digest, and the nonce prefix drawn for one attempt of one operation. */
  datatype Channel = Channel(
    aead: Aead,
    text: Digest -> string,
    prefix: (OperationId, nat) -> NoncePrefix)

  datatype Served<+T> = Served(device: Device, result: Result<T, ServerError>)

  datatype FileResponse = FileResponse(nonce: NoncePrefix, hash: Digest, contentLength: nat, body: Bytes)

  datatype Ack = Ack(accepted: bool, path: Path, size: nat, hash: Digest)

  function ManifestOf(d: Device): Manifest {
    Manifest(d.id, d.tables.files)
  }

  /** The indexed size and hash of a file the device offers. */
  function SharedFile(d: Device, path: Path): Result<(Size, Digest), ServerError> {
    if path !in d.tables.files then Err(NotFound)
    else
      var file := d.tables.files[path];
      if file.kind != File || file.state != LocalAvailable then Err(NotFound)
      else match file.hash
        case None => Err(InvalidRequest)
        case Some(hash) => Ok((file.size, hash))
  }

  /** GET /file: re-scan, look the file up, encrypt what the disk holds. */
  function ServeGet(d: Device, channel: Channel, path: Path, prefix: NoncePrefix): Served<FileResponse> {
    var s := Scan(d);
    match SharedFile(s, path)
    case Err(error) => Served(s, Err(error))
    case Ok((size, hash)) =>
      if path !in s.disk then Served(s, Err(ServerFilesystem))
      else
        var context := FileCipherContext("download", path, channel.text(hash), size);
        match Encrypt(Cipher(channel.aead, prefix), context, s.disk[path])
        case Err(error) => Served(s, Err(ServerCipher(error)))
        case Ok(file) => Served(s, Ok(FileResponse(prefix, hash, file.size, file.ciphertext)))
  }

  /** PUT /file: decrypt, check the hash, the folder limit and that nothing is at
      the target, then publish and index. There is no re-scan here. */
  ghost function ServePut(
    d: Device, channel: Channel, path: Path, size: U64, hash: Digest, nonce: NoncePrefix, body: Bytes): Served<Ack>
  {
    if |body| != EncryptedLen(size) then Served(d, Err(InvalidRequest))
    else
      match Decrypt(Cipher(channel.aead, nonce), FileCipherContext("upload", path, channel.text(hash), size), body)
      case Err(error) => Served(d, Err(ServerCipher(error)))
      case Ok(plain) =>
        if Blake3(plain) != hash then Served(d, Err(ContentHashMismatch))
        else if size > Remaining(d) then Served(d, Err(PeerLimitExceeded))
        else if path in d.disk then Served(d, Err(ServerConflict))
        else if |plain| > I64_MAX || size > I64_MAX then Served(d, Err(ServerFilesystem))
        else
          Served(d.WithFile(path, plain, Available(File, size, Some(hash), 1, d.id)), Ok(Ack(true, path, size, hash)))
  }

  /** DELETE /file: re-scan, and remove only the file that was named by size and hash. */
  function ServeDelete(d: Device, path: Path, size: U64, hash: Digest): Served<Ack> {
    var s := Scan(d);
    if path !in s.tables.files then Served(s, Err(NotFound))
    else
      var file := s.tables.files[path];
      if file.kind != File || file.state != LocalAvailable then Served(s, Err(NotFound))
      else if file.size != size || file.hash != Some(hash) then Served(s, Err(ServerConflict))
      else if path !in s.disk then Served(s, Err(ServerFilesystem))
      else
        Served(s.(disk := s.disk - {path}, tables := Forget(s.tables, path)), Ok(Ack(true, path, size, hash)))
  }

  // ------------------------------------------------------------------
  // What the handlers promise
  // ------------------------------------------------------------------

  /** DELETE succeeds exactly on the named content, and then only that path is gone. */
  lemma DeleteExact(d: Device, path: Path, size: U64, hash: Digest)
    requires Sound(d)
    ensures var s := ServeDelete(d, path, size, hash);
      && Agrees(s.device)
      && (s.result.Ok? <==> path in d.disk && |d.disk[path]| == size && Blake3(d.disk[path]) == hash)
      && (s.result.Ok? ==> s.result.value == Ack(true, path, size, hash))
      && s.device == (if s.result.Ok? then Scan(d).(disk := d.disk - {path}, tables := Forget(Scan(d).tables, path))
                      else Scan(d))
      && (s.result.Ok? ==> path !in s.device.disk && path !in s.device.tables.files)
      && (s.result.Err? ==> s.result.error == if path in d.disk then ServerConflict else NotFound)
  {
    ScanAgrees(d);
  }

  /** GET serves exactly the files on disk, and knows no other. */
  lemma GetExact(d: Device, channel: Channel, path: Path, prefix: NoncePrefix)
    requires Sound(d)
    ensures var s := ServeGet(d, channel, path, prefix);
      && s.device == Scan(d)
      && (s.result.Ok? <==> path in d.disk)
      && (s.result.Err? ==> s.result.error == NotFound)
      && (s.result.Ok? ==>
            var content := d.disk[path];
            && s.result.value.hash == Blake3(content) && s.result.value.nonce == prefix
            && s.result.value.contentLength == EncryptedLen(|content|)
            && Encrypt(Cipher(channel.aead, prefix),
                       FileCipherContext("download", path, channel.text(Blake3(content)), |content|), content)
               == Ok(EncryptedFile(s.result.value.body, s.result.value.contentLength, Blake3(content))))
  {
    ScanAgrees(d);
    hide SealFrom;
  }

  /** PUT succeeds exactly when the body is the encryption of a content with the
      stated hash and size, there is room for it, and the target is free. */
  lemma PutExact(
    d: Device, channel: Channel, path: Path, size: U64, hash: Digest, nonce: NoncePrefix, body: Bytes, content: Content)
    requires channel.aead.Correct()
    requires Encrypt(Cipher(channel.aead, nonce), FileCipherContext("upload", path, channel.text(hash), size), content).Ok?
    requires body == Encrypt(Cipher(channel.aead, nonce), FileCipherContext("upload", path, channel.text(hash), size),
                             content).value.ciphertext
    ensures var s := ServePut(d, channel, path, size, hash, nonce, body);
      && (s.result.Ok? <==> Blake3(content) == hash && size <= Remaining(d) && path !in d.disk)
      && (s.result.Ok? ==> s.result.value == Ack(true, path, size, hash))
      && s.device == (if s.result.Ok?
                      then d.WithFile(path, content, Available(File, size, Some(hash), 1, d.id)) else d)
      && (s.result.Err? ==>
            s.result.error == (if Blake3(content) != hash then ContentHashMismatch
                               else if size > Remaining(d) then PeerLimitExceeded else ServerConflict))
  {
    var context := FileCipherContext("upload", path, channel.text(hash), size);
    RoundTrip(Cipher(channel.aead, nonce), context, content);
  }

  /** PUT accepts no body but the encryption of a content, under the stated context. */
  lemma PutOnlyEncrypted(
    d: Device, channel: Channel, path: Path, size: U64, hash: Digest, nonce: NoncePrefix, body: Bytes)
    requires channel.aead.Correct() && ServePut(d, channel, path, size, hash, nonce, body).result.Ok?
    ensures exists content: Content ::
      Encrypt(Cipher(channel.aead, nonce), FileCipherContext("upload", path, channel.text(hash), size), content)
      == Ok(EncryptedFile(body, EncryptedLen(size), hash))
  {
    var cipher, context := Cipher(channel.aead, nonce), FileCipherContext("upload", path, channel.text(hash), size);
    var content := Decrypt(cipher, context, body).value;
    DecryptInvertsEncrypt(cipher, context, body, content);
    hide Decrypt, SealFrom;
  }
}
