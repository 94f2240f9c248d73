/** Values as the uploader sees them after `json.load`: the scalar kinds that
    a configuration document holds, Python's truthiness on them, and when
    `os.path.exists` raises on them instead of answering. */
module JsonValues {

  datatype Option<+T> = None | Some(value: T)

  /** A configuration value: JSON null, a boolean, an integer or a string. */
  datatype Value = Null | Flag(b: bool) | Num(n: int) | Str(s: string)

  /** Python truthiness: `None`, `False`, `0` and `""` are false. */
  predicate Truthy(v: Value) {
    match v
    case Null => false
    case Flag(b) => b
    case Num(n) => n != 0
    case Str(s) => s != ""
  }

  /** Truthiness of an optional id: `None` and `""` are both false. */
  predicate IsSet(id: Option<string>) {
    id.Some? && id.value != ""
  }

  /** The range of a C `int`, which a file descriptor must fit. */
  const MinFd := -0x8000_0000
  const MaxFd := 0x7fff_ffff

  /** `os.path.exists` on a setting raises rather than answering: an integer
      is taken as a file descriptor, and one outside the C `int` range makes
      `os.stat` raise `OverflowError`, which `exists` does not catch. Strings,
      booleans and in-range integers always get an answer. */
  predicate ExistsRaises(v: Value) {
    v.Num? && (v.n < MinFd || v.n > MaxFd)
  }
}
