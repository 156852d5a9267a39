/** The foreign code the core calls and does not define: the two minifiers,
    the two compressors, MD5, UTF-8 and the path-safety check. Each is a
    field of `Libraries`, so every operation that uses one receives it as a
    parameter and nothing is known about it beyond its type. */
module Externals {
  import opened Wrappers
  import opened PyStr

  newtype byte = x: int | 0 <= x < 256

  /** A Python `bytes` value. */
  type bytes = seq<byte>

  /** `hashlib.md5(data).hexdigest()`: 32 lower-case hexadecimal digits. */
  type Md5Hex = s: string | |s| == 32 && IsLowerHex(s)
    witness "00000000000000000000000000000000"

  datatype Libraries = Libraries(
    /** `rcssmin.cssmin(text, keep_bang_comments=...)`; None when it raises. */
    cssmin: (string, bool) -> Option<string>,
    /** `rjsmin.jsmin(text, keep_bang_comments=...)`; None when it raises. */
    jsmin: (string, bool) -> Option<string>,
    /** The gzip stream `gzip.GzipFile(compresslevel=level)` writes. */
    gzip: (bytes, int) -> bytes,
    /** `brotli.compress(data, quality=level)`. */
    brotli: (bytes, int) -> bytes,
    md5: bytes -> Md5Hex,
    /** `text.encode("utf-8")`. */
    encodeUtf8: string -> bytes,
    /** `data.decode("utf-8")`; None on UnicodeDecodeError. */
    decodeUtf8: bytes -> Option<string>,
    /** `is_safe_path(path)`, imported by storage.py but not defined in
        utils.py. */
    isSafePath: string -> bool)
}
