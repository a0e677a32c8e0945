/**
 * Failure-carrying values shared by every module of the model: the .NET
 * code signals errors by throwing, the model returns them.
 */
module Outcomes {

  datatype Option<+T> = None | Some(value: T)

  /** The exceptions the modelled code can raise, by cause. */
  datatype Error =
    | IncludeDependencies      // ArgumentException: "Include Dependencies" asked for a hybrid package
    | SubstringOutOfRange      // ArgumentOutOfRangeException: `Packages/<name>` with no further '/'
    | DirectoryListing         // IOException while enumerating a package root
    | LibraryPackage           // ArgumentException: package resolved inside the Library folder
    | InvalidUploadConfig      // ArgumentException: the upload config found for the folder is not valid
    | UnityRegistryPackage     // ArgumentException: `com.unity.` package
    | NotInAssetDatabase       // NullReferenceException: folder without children in the asset database
    | TargetDirMissing         // Exception: staging directory does not exist
    | CopyFailed               // IOException: File.Copy onto an existing file, or of a directory

  /** A value, or the exception that was thrown instead. */
  datatype Outcome<+T> = Ok(value: T) | Throws(error: Error)
}
