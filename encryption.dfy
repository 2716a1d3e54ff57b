/**
  `EncryptionManager`: the stateless facade over key derivation, the AES cipher
  and the JSON codec. The key-derivation function and the cipher are external
  capabilities; they appear here only as the symbolic stand-ins
  `DeriveMasterKey`, `AesEncrypt` and `AesDecrypt`.
 */
module Encryption {
  import opened Wrappers
  import opened Uuids
  import opened Errors
  import opened Secrets
  import opened Codec

  /** Stand-in for `KeyDerivationService.deriveMasterKey(from:salt:)`. */
  function DeriveMasterKey(password: string, salt: Bytes): Key {
    DerivedKey(password, salt)
  }

  /** Stand-in for `AESEncryptionService.encrypt(_:with:)`. */
  function AesEncrypt(plain: Data, key: Key): Data {
    Sealed(key, plain)
  }

  /** Stand-in for `AESEncryptionService.decrypt(_:with:)`: authenticates, so any other key fails. */
  function AesDecrypt(ciphertext: Data, key: Key): (r: Result<Data, Error>)
    ensures r.Success? <==> ciphertext.Sealed? && ciphertext.key == key
    ensures r.Success? ==> ciphertext == AesEncrypt(r.value, key)
    ensures r.Failure? ==> r.error == CipherFailure
  {
    if ciphertext.Sealed? && ciphertext.key == key then Success(ciphertext.plain)
    else Failure(CipherFailure)
  }

  /** `deriveKey(from:salt:)`: an empty password is refused before the KDF runs. */
  function DeriveKey(password: string, salt: Bytes): (r: Result<Key, Error>)
    ensures r.Failure? <==> password == ""
    ensures r.Failure? ==> r.error == InvalidPassword
    ensures r.Success? ==> r.value == DeriveMasterKey(password, salt)
  {
    if password == "" then Failure(InvalidPassword)
    else Success(DeriveMasterKey(password, salt))
  }

  /** Derivation is deterministic, and different passwords or salts give different keys. */
  lemma DeriveKeyInjective(p: string, s: Bytes, q: string, t: Bytes)
    requires DeriveKey(p, s).Success? && DeriveKey(q, t).Success?
    ensures DeriveKey(p, s) == DeriveKey(q, t) <==> p == q && s == t
  {
  }

  /** `encrypt(_:using:)`: JSON-encode, then seal. */
  function Encrypt(item: SecretItem, key: Key): (d: Data)
    ensures AesDecrypt(d, key) == Success(Json(EncodedItem(item)))
  {
    AesEncrypt(Json(EncodedItem(item)), key)
  }

  /** `decrypt(_:as:using:)`: open, then decode; either failure is thrown as is. */
  function Decrypt(d: Data, key: Key): (r: Result<SecretItem, Error>)
    ensures r.Success? ==> d == Encrypt(r.value, key)
    ensures AesDecrypt(d, key).Failure? ==> r == Failure(CipherFailure)
    ensures AesDecrypt(d, key).Success? ==> r == DecodeItem(AesDecrypt(d, key).value)
  {
    var plain :- AesDecrypt(d, key);
    DecodeItem(plain)
  }

  /** Round trip: what is encrypted under a key decrypts under that key. */
  lemma DecryptEncrypt(item: SecretItem, key: Key)
    ensures Decrypt(Encrypt(item, key), key) == Success(item)
  {
  }

  /** A ciphertext opened with any other key fails authentication. */
  lemma DecryptWithOtherKey(item: SecretItem, key: Key, other: Key)
    requires other != key
    ensures Decrypt(Encrypt(item, key), other) == Failure(CipherFailure)
  {
  }

  /** Hence a wrong password (over the same salt) is detected at the first decryption. */
  lemma WrongPasswordDetected(item: SecretItem, password: string, attempt: string, salt: Bytes)
    requires password != "" && attempt != "" && attempt != password
    ensures Decrypt(Encrypt(item, DeriveKey(password, salt).value), DeriveKey(attempt, salt).value)
      == Failure(CipherFailure)
  {
  }

  /** `EncryptedContainer`: a ciphertext together with the salt of its key. */
  datatype EncryptedContainer = EncryptedContainer(salt: Bytes, ciphertext: Data)

  /**
    `encryptWithNewSalt(_:password:)`; `salt` is what `KeyDerivationService.generateSalt()`
    returned.
   */
  function EncryptWithNewSalt(data: Data, password: string, salt: Bytes): (r: Result<EncryptedContainer, Error>)
    ensures r.Failure? <==> password == ""
    ensures r.Failure? ==> r.error == InvalidPassword
    ensures r.Success? ==> r.value.salt == salt
    ensures r.Success? ==> AesDecrypt(r.value.ciphertext, DeriveMasterKey(password, salt)) == Success(data)
  {
    var key :- DeriveKey(password, salt);
    Success(EncryptedContainer(salt, AesEncrypt(data, key)))
  }

  /** `decryptContainer(_:password:)`: the key comes from the container's own salt. */
  function DecryptContainer(container: EncryptedContainer, password: string): (r: Result<Data, Error>)
    ensures password == "" ==> r == Failure(InvalidPassword)
    ensures password != "" ==>
      r == AesDecrypt(container.ciphertext, DeriveMasterKey(password, container.salt))
  {
    var key :- DeriveKey(password, container.salt);
    AesDecrypt(container.ciphertext, key)
  }

  /** Round trip of the salted container. */
  lemma ContainerRoundTrip(data: Data, password: string, salt: Bytes)
    requires password != ""
    ensures EncryptWithNewSalt(data, password, salt).Success?
    ensures DecryptContainer(EncryptWithNewSalt(data, password, salt).value, password) == Success(data)
  {
  }

  /** A container opened with a different non-empty password fails authentication. */
  lemma ContainerWrongPassword(data: Data, password: string, attempt: string, salt: Bytes)
    requires password != "" && attempt != "" && attempt != password
    ensures DecryptContainer(EncryptWithNewSalt(data, password, salt).value, attempt) == Failure(CipherFailure)
  {
  }
}
