/** Masking of a commenter's name (`formatUserName` in userController.js):
    when the flag is exactly 1 only the first character stays readable. The
    two listings of a user's own comments, `getProductCommentsByUser` and
    `getSellerCommentsByUser`, call it for private comments only, passing the
    comment's own visibility flag, 0, so as written no name is ever masked. */
module UserNames {
  import opened Common

  /** `'*'.repeat(n - 1)` with `n == 0` throws a RangeError. */
  datatype FormatError = RangeError

  /** `n` asterisks. */
  function Stars(n: nat): (r: string)
    ensures |r| == n
    ensures forall i :: 0 <= i < n ==> r[i] == '*'
  {
    if n == 0 then "" else Stars(n - 1) + "*"
  }

  /** The flag is compared with `=== 1`, so only the number 1 masks. An empty
      name with the flag set fails, since the count of asterisks is -1. */
  function FormatUserName(name: string, isPublic: int): (r: Result<string, FormatError>)
    ensures r.Err? <==> isPublic == 1 && |name| == 0
    ensures isPublic != 1 ==> r == Ok(name)
    ensures r.Ok? && isPublic == 1 ==>
      && |r.value| == |name|
      && r.value[0] == name[0]
      && forall i :: 1 <= i < |name| ==> r.value[i] == '*'
  {
    if isPublic == 1 then
      if |name| == 0 then Err(RangeError) else Ok([name[0]] + Stars(|name| - 1))
    else Ok(name)
  }

  /** A masked name reveals only its first character and its length: two
      names that share both are masked alike. */
  lemma MaskRevealsOnlyFirstAndLength(a: string, b: string)
    requires |a| == |b| > 0 && a[0] == b[0]
    ensures FormatUserName(a, 1) == FormatUserName(b, 1)
  {
    var ra := FormatUserName(a, 1).value;
    var rb := FormatUserName(b, 1).value;
    assert forall i :: 0 <= i < |ra| ==> ra[i] == rb[i];
  }

  /** Masking a masked name changes nothing. */
  lemma MaskIdempotent(name: string)
    requires |name| > 0
    ensures FormatUserName(FormatUserName(name, 1).value, 1) == FormatUserName(name, 1)
  {
    var once := FormatUserName(name, 1).value;
    var twice := FormatUserName(once, 1).value;
    assert forall i :: 0 <= i < |once| ==> twice[i] == once[i];
  }

  // ---------------------------------------------------------------------
  // The listings of a user's own comments

  /** The name such a listing shows its requester, as written: for a private comment
      (flag 0) the name goes through `formatUserName` with that same flag. */
  function ShownNameAsWritten(name: string, isPublic: int): Result<string, FormatError>
  {
    if isPublic == 0 then FormatUserName(name, isPublic) else Ok(name)
  }

  /** As written, the requester's name on a private comment is shown in full. */
  lemma PrivateNameShownInFull(name: string)
    ensures ShownNameAsWritten(name, 0) == Ok(name)
  {
  }

  /** The name such a listing would show if the call masked as its guard
      suggests: a private comment's name masked, any other name as it is. */
  function ShownName(name: string, isPublic: int): (r: Result<string, FormatError>)
    ensures r.Err? <==> isPublic == 0 && |name| == 0
    ensures isPublic != 0 ==> r == Ok(name)
    ensures isPublic == 0 && r.Ok? ==>
      && |r.value| == |name|
      && r.value[0] == name[0]
      && forall i :: 1 <= i < |name| ==> r.value[i] == '*'
  {
    if isPublic == 0 then FormatUserName(name, 1) else Ok(name)
  }

  /** A private commenter's non-empty name is shown masked: its length and
      first character, asterisks elsewhere, and never the name itself once it
      has a second character that is not an asterisk. */
  lemma PrivateNameMasked(name: string)
    requires |name| > 0
    ensures ShownName(name, 0).Ok?
    ensures |ShownName(name, 0).value| == |name| && ShownName(name, 0).value[0] == name[0]
    ensures forall i :: 1 <= i < |name| ==> ShownName(name, 0).value[i] == '*'
    ensures (exists i :: 1 <= i < |name| && name[i] != '*') ==> ShownName(name, 0).value != name
  {
    if exists i :: 1 <= i < |name| && name[i] != '*' {
      var i :| 1 <= i < |name| && name[i] != '*';
      assert ShownName(name, 0).value[i] != name[i];
    }
  }
}
