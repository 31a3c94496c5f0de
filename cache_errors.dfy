/** internal/cache/errors.go: classifying a file-access error into one of four
    stable reasons, shared by the scanner and the trimmer. */
module CacheErrors {
  import opened Common

  const ReasonPermissionDenied: string := "permission denied"
  const ReasonFileLocked: string := "file locked"
  const ReasonNotFound: string := "not found"
  const ReasonUnknown: string := "access error"

  predicate IsReason(s: string)
  {
    s == ReasonPermissionDenied || s == ReasonFileLocked || s == ReasonNotFound || s == ReasonUnknown
  }

  /** A classified access error; `err` is None for a nil error. */
  datatype AccessError = AccessError(err: Option<OsError>, path: string, reason: string) {

    /** `Error()`: the path, a colon and a space, then the reason. */
    function Error(): (s: string)
      ensures |s| == |path| + 2 + |reason|
      ensures s[..|path|] == path && s[|path|..|path| + 2] == ": " && s[|path| + 2..] == reason
    {
      path + ": " + reason
    }

    /** `Unwrap()`: the wrapped error. */
    function Unwrap(): Option<OsError>
    {
      err
    }
  }

  /** `ClassifyError`: the first matching kind wins, in the order permission,
      not-exist, busy, text-file-busy; a nil error is an unknown access error. */
  function ClassifyError(path: string, err: Option<OsError>): (r: AccessError)
    ensures r.path == path && r.Unwrap() == err
    ensures IsReason(r.reason)
    ensures r.reason == ReasonPermissionDenied <==> err.Some? && err.value.permission
    ensures r.reason == ReasonNotFound <==> err.Some? && !err.value.permission && err.value.notExist
    ensures r.reason == ReasonFileLocked <==>
      err.Some? && !err.value.permission && !err.value.notExist && (err.value.busy || err.value.textBusy)
  {
    if err.None? then
      AccessError(None, path, ReasonUnknown)
    else
      var e := err.value;
      var reason :=
        if e.permission then ReasonPermissionDenied
        else if e.notExist then ReasonNotFound
        else if e.busy then ReasonFileLocked
        else if e.textBusy then ReasonFileLocked
        else ReasonUnknown;
      AccessError(err, path, reason)
  }

  /** An error of none of the four kinds, or a nil one, is an unknown access error. */
  lemma UnknownIsTheFallback(path: string, err: Option<OsError>)
    requires err.Some? ==> !(err.value.permission || err.value.notExist || err.value.busy || err.value.textBusy)
    ensures ClassifyError(path, err).reason == ReasonUnknown
  {
  }
}
