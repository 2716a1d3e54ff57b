/**
  The errors the vault core throws. Swift's `throws` carries `any Error`; here
  that is the tagged union `Error` over the concrete error types involved.
 */
module Errors {

  /** The underlying file-system cause a `StorageError` wraps. */
  datatype IoCause =
    | NoSuchFile        // reading, moving or removing a file that is not there
    | FileExists        // `moveItem` onto a destination that already exists
    | MetadataNotFound  // the NSError 404 "Metadata not found" of createBackup

  /** `StorageError` (FileStorage.swift). */
  datatype StorageError =
    | WriteFailed(writeCause: IoCause)
    | ReadFailed(readCause: IoCause)
    | DeleteFailed(deleteCause: IoCause)
    | RestoreFailed(restoreCause: IoCause)
    | ListFailed(listCause: IoCause)
    | DirectoryCreationFailed

  /** `VaultError` (VaultManager.swift). */
  datatype VaultError =
    | VaultLocked
    | InvalidMasterPassword
    | ItemNotFound
    | EncryptionFailed
    | DecryptionFailed

  /** Anything the core can throw. */
  datatype Error =
    | Storage(storage: StorageError)
    | Vault(vault: VaultError)
    | InvalidPassword   // KeyDerivationService.KeyDerivationError.invalidPassword
    | CipherFailure     // AESEncryptionService.decrypt: the authentication tag does not verify
    | DecodingFailure   // JSONDecoder: the bytes are not an encoding of the requested type
}
