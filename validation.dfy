/** The vocabulary of schema validation: a failed check reports an issue at a
    field path with a message, and an object schema reports the issues of all
    its fields in key order. */
module Validation {

  import opened Common

  datatype Issue = Issue(path: string, message: string)

  /** One check: no issue when it passes. */
  function Check(ok: bool, path: string, message: string): (r: seq<Issue>)
    ensures r == [] <==> ok
    ensures !ok ==> r == [Issue(path, message)]
  {
    if ok then [] else [Issue(path, message)]
  }

  /** `z.string().min(lo, m1).max(hi, m2)`: both checks run, each may report. */
  function Length(s: string, lo: nat, hi: nat, path: string, tooShort: string, tooLong: string): (r: seq<Issue>)
    ensures r == [] <==> lo <= |s| <= hi
    ensures |s| < lo ==> Issue(path, tooShort) in r
    ensures |s| > hi ==> Issue(path, tooLong) in r
  {
    Check(|s| >= lo, path, tooShort) + Check(|s| <= hi, path, tooLong)
  }

  /** `z.string().max(hi, message)`: one check, reported once. */
  function MaxLength(s: string, hi: nat, path: string, message: string): (r: seq<Issue>)
    ensures r == [] <==> |s| <= hi
    ensures |s| > hi ==> r == [Issue(path, message)]
  {
    Check(|s| <= hi, path, message)
  }

  /** `.optional()` around a schema: an absent value passes. */
  function Optional(s: Option<string>, issues: string -> seq<Issue>): (r: seq<Issue>)
    ensures s.None? ==> r == []
    ensures s.Some? ==> r == issues(s.value)
  {
    if s.None? then [] else issues(s.value)
  }

  /** `schema.optional().or(z.literal(''))`: the union passes when either
      branch passes; when both fail, the issues of the first branch are
      reported, since its failures are not fatal. */
  function OptionalOrEmpty(s: Option<string>, issues: string -> seq<Issue>): (r: seq<Issue>)
    ensures r == [] <==> s.None? || s.value == "" || issues(s.value) == []
    ensures r != [] ==> r == issues(s.value)
  {
    if s.None? || issues(s.value) == [] || s.value == "" then [] else issues(s.value)
  }
}
