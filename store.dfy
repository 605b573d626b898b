/**
 * The encrypted favorites store: a key file and a data file in the working
 * directory. The file system is a map from file name to contents. A Fernet
 * token is kept symbolic: it records the key it was made with and the tree
 * it carries, so decrypting with the same key gives the tree back and
 * decrypting with any other key fails, as Fernet's authentication does.
 */
module Store {
  import opened Wrappers
  import opened Dicts

  const KeyFile := "favoritos.key"
  const DataFile := "favoritos.dat"

  type Byte = bv8

  /** What a file holds: plain bytes, or a Fernet token over a pickled favorites dict. */
  datatype Blob = Bytes(data: seq<Byte>) | Token(key: seq<Byte>, favorites: seq<Item>)

  type Files = map<string, Blob>

  /** The exceptions the store functions let escape. */
  datatype StoreError =
    | KeyFileMissing   // `open(FAVORITES_KEY_FILE)` raises FileNotFoundError
    | InvalidKey       // `Fernet(key)` raises ValueError
    | InvalidToken     // `fernet.decrypt` raises InvalidToken

  /** A Fernet key: the url-safe base64 text of 32 bytes, 44 characters long. */
  predicate ValidKey(key: seq<Byte>) {
    |key| == 44
  }

  /** `generate_key`: writes `newKey` as the key file only when there is none. */
  function WithKey(files: Files, newKey: seq<Byte>): (r: Files)
    ensures KeyFile in r
    ensures KeyFile in files ==> r == files
    ensures KeyFile !in files ==> r[KeyFile] == Bytes(newKey)
    ensures r.Keys == files.Keys + {KeyFile}
    ensures forall f :: f in files ==> r[f] == files[f]
  {
    if KeyFile in files then files else files[KeyFile := Bytes(newKey)]
  }

  /** `load_key` followed by `Fernet(key)`. */
  function ReadKey(files: Files): (r: Result<seq<Byte>, StoreError>)
    ensures r.Ok? ==> ValidKey(r.value) && KeyFile in files && files[KeyFile] == Bytes(r.value)
    ensures r == Err(KeyFileMissing) <==> KeyFile !in files
    ensures r == Err(InvalidKey) <==>
      KeyFile in files && !(files[KeyFile].Bytes? && ValidKey(files[KeyFile].data))
  {
    if KeyFile !in files then Err(KeyFileMissing)
    else match files[KeyFile]
      case Bytes(key) => if ValidKey(key) then Ok(key) else Err(InvalidKey)
      case Token(_, _) => Err(InvalidKey)
  }

  /** `save_favorites_encrypted`: the data file after encrypting `favorites` with the stored key. */
  function SaveFiles(files: Files, favorites: seq<Item>): (r: Result<Files, StoreError>)
    ensures r.Err? ==> ReadKey(files).Err? && r.error == ReadKey(files).error
    ensures r.Ok? ==> ReadKey(files).Ok? && r.value.Keys == files.Keys + {DataFile}
    ensures r.Ok? ==> r.value[DataFile] == Token(ReadKey(files).value, favorites)
  {
    match ReadKey(files)
    case Ok(key) => Ok(files[DataFile := Token(key, favorites)])
    case Err(e) => Err(e)
  }

  /** `load_favorites_encrypted`. */
  function LoadFavorites(files: Files): (r: Result<seq<Item>, StoreError>)
    ensures DataFile !in files || KeyFile !in files ==> r == Ok([])
  {
    if DataFile !in files || KeyFile !in files then Ok([])
    else match ReadKey(files)
      case Err(e) => Err(e)
      case Ok(key) =>
        match files[DataFile]
        case Token(k, favorites) => if k == key then Ok(favorites) else Err(InvalidToken)
        case Bytes(_) => Err(InvalidToken)
  }

  /** `generate_key` never replaces a key: a second call changes nothing, whatever key it would make. */
  lemma KeyIdempotent(files: Files, first: seq<Byte>, second: seq<Byte>)
    ensures WithKey(WithKey(files, first), second) == WithKey(files, first)
  {
  }

  /** The key `generate_key` writes is the key `load_key` reads back, if Fernet accepts it. */
  lemma ProvisionedKeyRead(files: Files, newKey: seq<Byte>)
    requires KeyFile !in files
    ensures ValidKey(newKey) ==> ReadKey(WithKey(files, newKey)) == Ok(newKey)
    ensures !ValidKey(newKey) ==> ReadKey(WithKey(files, newKey)) == Err(InvalidKey)
  {
  }

  /** On a first run there is nothing to load: the store starts empty. */
  lemma FirstRunLoadsEmpty(files: Files, newKey: seq<Byte>)
    requires DataFile !in files
    ensures LoadFavorites(WithKey(files, newKey)) == Ok([])
  {
  }

  /**
   * Saving writes only the data file, succeeds exactly when the key file
   * holds a valid key, and loading afterwards gives back the saved tree.
   */
  lemma SaveThenLoad(files: Files, favorites: seq<Item>)
    ensures SaveFiles(files, favorites).Ok? <==> ReadKey(files).Ok?
    ensures SaveFiles(files, favorites).Ok? ==>
      var after := SaveFiles(files, favorites).value;
      && after.Keys == files.Keys + {DataFile}
      && (forall f :: f in files && f != DataFile ==> after[f] == files[f])
      && LoadFavorites(after) == Ok(favorites)
  {
  }

  /** A data file written under another key does not load: Fernet rejects the token. */
  lemma ForeignTokenRejected(files: Files, other: seq<Byte>, favorites: seq<Item>)
    requires ReadKey(files).Ok? && other != ReadKey(files).value
    requires DataFile in files && files[DataFile] == Token(other, favorites)
    ensures LoadFavorites(files) == Err(InvalidToken)
  {
  }

  /** After a valid key is provisioned, saving cannot fail unless the key file was already there and bad. */
  lemma SaveAfterProvision(files: Files, newKey: seq<Byte>, favorites: seq<Item>)
    requires ValidKey(newKey)
    requires KeyFile in files ==> ReadKey(files).Ok?
    ensures SaveFiles(WithKey(files, newKey), favorites).Ok?
  {
  }

  /** The two files of the working directory. */
  class Disk {
    var files: Files

    constructor (files: Files)
      ensures this.files == files
    {
      this.files := files;
    }

    /** `generate_key`, with `newKey` the key `Fernet.generate_key()` returns. */
    method GenerateKey(newKey: seq<Byte>)
      modifies this
      ensures files == WithKey(old(files), newKey)
    {
      if KeyFile !in files {
        files := files[KeyFile := Bytes(newKey)];
      }
    }

    /** `save_favorites_encrypted`: on failure nothing is written. */
    method Save(favorites: seq<Item>) returns (r: Result<(), StoreError>)
      modifies this
      ensures SaveFiles(old(files), favorites).Ok? ==> r.Ok? && files == SaveFiles(old(files), favorites).value
      ensures SaveFiles(old(files), favorites).Err? ==>
        r == Err(SaveFiles(old(files), favorites).error) && files == old(files)
    {
      var key := ReadKey(files);
      if key.Err? {
        return Err(key.error);
      }
      files := files[DataFile := Token(key.value, favorites)];
      return Ok(());
    }

    /** `load_favorites_encrypted`, which only reads. */
    method Load() returns (r: Result<seq<Item>, StoreError>)
      ensures r == LoadFavorites(files)
    {
      if DataFile !in files || KeyFile !in files {
        return Ok([]);
      }
      var key := ReadKey(files);
      if key.Err? {
        return Err(key.error);
      }
      var blob := files[DataFile];
      if blob.Token? && blob.key == key.value {
        return Ok(blob.favorites);
      }
      return Err(InvalidToken);
    }
  }
}
