/** The upload size check (questions/validators.py). */
module Validators {

  /** `limit = 5 * 1024 * 1024` bytes. */
  const FileSizeLimit: nat := 5 * 1024 * 1024

  const FileTooLarge: string := "File too large. Size should not exceed 5 MB"

  /** Either the value passes, or a `ValidationError` with its message is raised. */
  datatype Validation = Valid | ValidationError(message: string)

  /** `validate_file_size`: rejects exactly the files larger than the limit. */
  function ValidateFileSize(size: nat): (r: Validation)
    ensures r.ValidationError? <==> size > 5242880
    ensures r.ValidationError? ==> r.message == FileTooLarge
  {
    if size > FileSizeLimit then ValidationError(FileTooLarge) else Valid
  }

  /** The limit is 5 MiB. */
  lemma LimitIsFiveMebibytes()
    ensures FileSizeLimit == 5242880
  {
  }

  /** The comparison is strict: a file of exactly the limit is accepted. */
  lemma LimitItselfAccepted()
    ensures ValidateFileSize(FileSizeLimit) == Valid
    ensures ValidateFileSize(FileSizeLimit + 1).ValidationError?
  {
  }

  /** Rejection is monotone: anything larger than a rejected size is rejected. */
  lemma RejectionMonotone(small: nat, large: nat)
    requires small <= large
    requires ValidateFileSize(small).ValidationError?
    ensures ValidateFileSize(large).ValidationError?
  {
  }
}
