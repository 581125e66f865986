/** Interned path names, as far as the supervisor's bookkeeping looks at them. */
module FileNames {
  import opened Options

  /** `parentDir` is None for a path without a parent directory. */
  datatype FileName = FileName(path: string, inIgnoreLocation: bool, inReadOnlyLocation: bool,
                               parentDir: Option<FileName>)
}
