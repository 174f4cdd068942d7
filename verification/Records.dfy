/** Types several parts of the project share. */
module Records {

  datatype Option<+T> = None | Some(value: T)

  type Byte = b: nat | b < 256

  type Bytes = seq<Byte>

  /** One indexed package, as APTRecord and APKRecord of internal/store/store.go. */
  datatype Record = Record(artifactPath: string, package: string, version: string, architecture: string)
}
