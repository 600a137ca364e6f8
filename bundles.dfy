/**
 Android's `Bundle` as the download wizard uses it: a map from keys to typed
 values. Every getter takes a default, which it returns when the key is
 absent or holds a value of another type; `getString` also returns the
 default when the key holds an explicit null.
 */
module Bundles {
  import opened Optional

  datatype BundleValue =
    | StringValue(str: Option<string>)
    | IntValue(int32: int)
    | LongValue(int64: int)
    | BooleanValue(flag: bool)

  type Bundle = map<string, BundleValue>

  function GetString(b: Bundle, key: string, default: Option<string>): (r: Option<string>)
    ensures default.Some? ==> r.Some?
    ensures key !in b ==> r == default
  {
    if key in b && b[key].StringValue? && b[key].str.Some? then b[key].str else default
  }

  function GetInt(b: Bundle, key: string, default: int): int {
    if key in b && b[key].IntValue? then b[key].int32 else default
  }

  function GetLong(b: Bundle, key: string, default: int): int {
    if key in b && b[key].LongValue? then b[key].int64 else default
  }

  function GetBoolean(b: Bundle, key: string, default: bool): bool {
    if key in b && b[key].BooleanValue? then b[key].flag else default
  }
}
