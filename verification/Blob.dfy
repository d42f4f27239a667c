/**
 The content-addressed store (internal/blob/blob.go).

 Sha256 and Md5 stand for the two hashes. Only their injectivity is used: being
 constructors, equal digests have equal contents, and nothing else is known of them.
 */
module Blob {
  import opened ByteStrings
  import opened Wrappers

  type Time = int

  datatype Hash = Sha256(content: Bytes)

  /** Entity tags: the md5 of a whole upload, or the md5 of the parts' tags. */
  datatype ETag = NoTag | Md5(content: Bytes) | Md5OfParts(tags: seq<ETag>)

  /** A durable file under blobs/. */
  datatype File = File(content: Bytes, mod: Time)

  type Blobs = map<Hash, File>

  datatype Info = Info(hash: Hash, md5: ETag, size: nat, deduped: bool)

  /** Every file holds the content its name is the hash of. */
  ghost predicate Sound(blobs: Blobs) {
    forall h :: h in blobs ==> Sha256(blobs[h].content) == h
  }

  /** The files after content has been stored: a duplicate leaves the first copy alone. */
  function Land(blobs: Blobs, content: Bytes, now: Time): (r: Blobs)
    ensures Sound(blobs) ==> Sound(r)
    ensures Sha256(content) in r && blobs.Keys <= r.Keys
    ensures forall h :: h in blobs ==> r[h] == blobs[h]
  {
    var h := Sha256(content);
    if h in blobs then blobs else blobs[h := File(content, now)]
  }

  /** At most one file is new: the content's, as of now. */
  lemma LandedExactly(blobs: Blobs, content: Bytes, now: Time)
    ensures var r := Land(blobs, content, now);
            && r.Keys == blobs.Keys + {Sha256(content)}
            && (Sha256(content) !in blobs ==> r[Sha256(content)] == File(content, now))
  {
  }

  class Store {
    var files: Blobs
    /** How many files under blobs/ have a name that is no hash; the store never touches them. */
    var foreign: nat

    constructor ()
      ensures files == map[] && foreign == 0
    {
      files, foreign := map[], 0;
    }

    method Put(content: Bytes, now: Time) returns (info: Info)
      modifies this`files
      ensures files == Land(old(files), content, now)
      ensures info == Info(Sha256(content), Md5(content), |content|, Sha256(content) in old(files))
    {
      var hash, sum := Sha256(content), Md5(content);
      if hash in files {
        return Info(hash, sum, |content|, true);
      }
      files := files[hash := File(content, now)];
      info := Info(hash, sum, |content|, false);
    }

    /** Some(content), or None for ErrNotFound. */
    method Open(hash: Hash) returns (content: Option<Bytes>)
      ensures content == if hash in files then Some(files[hash].content) else None
      ensures Sound(files) && content.Some? ==> Sha256(content.value) == hash
    {
      content := if hash in files then Some(files[hash].content) else None;
    }

    method Stat(hash: Hash) returns (found: bool)
      ensures found <==> hash in files
    {
      found := hash in files;
    }

    /** An absent file is no error. */
    method Remove(hash: Hash)
      modifies this`files
      ensures files == old(files) - {hash}
      ensures Sound(old(files)) ==> Sound(files)
    {
      files := files - {hash};
    }

    /** Recomputes a file's hash; None when there is no such file. */
    method Verify(hash: Hash) returns (ok: Option<bool>)
      ensures ok.None? <==> hash !in files
      ensures ok == Some(true) <==> hash in files && files[hash].content == hash.content
    {
      var f := Open(hash);
      match f
      case None => ok := None;
      case Some(content) => ok := Some(Sha256(content) == hash);
    }
  }
}
