/**
 * The user model of the accounts application: the five roles, the default
 * role, and the display name shown in notifications and pages.
 */
module Accounts {
  import opened Wrappers

  /** A user is identified by its primary key. */
  type UserId = nat

  datatype Role = Author | Oek | Reviewer | LibraryHead | Commission

  /** New users are authors unless told otherwise. */
  const DefaultRole: Role := Author

  /** The value stored in the `role` column (a CharField of at most 32 characters). */
  function RoleCode(r: Role): string
  {
    match r
    case Author => "AUTHOR"
    case Oek => "OEK"
    case Reviewer => "REVIEWER"
    case LibraryHead => "LIBRARY_HEAD"
    case Commission => "COMMISSION"
  }

  /** Reads a stored `role` column back; anything but the five codes is not a role. */
  function ParseRole(code: string): (r: Option<Role>)
    ensures r.Some? ==> RoleCode(r.value) == code
    ensures r.None? ==> forall x :: RoleCode(x) != code
  {
    if code == "AUTHOR" then Some(Author)
    else if code == "OEK" then Some(Oek)
    else if code == "REVIEWER" then Some(Reviewer)
    else if code == "LIBRARY_HEAD" then Some(LibraryHead)
    else if code == "COMMISSION" then Some(Commission)
    else None
  }

  /** Every role is stored under a code that fits the column and reads back as itself. */
  lemma RoleCodeRoundTrip(r: Role)
    ensures |RoleCode(r)| <= 32
    ensures ParseRole(RoleCode(r)) == Some(r)
  {
  }

  datatype User = User(
    username: string,
    firstName: string,
    lastName: string,
    fio: string,
    role: Role,
    isSuperuser: bool)

  /** A user created with only a username: blank names, default role, no superuser flag. */
  function NewUser(username: string): (u: User)
    ensures u.role == Author && !u.isSuperuser && u.username == username
  {
    User(username, "", "", "", DefaultRole, false)
  }

  /** Python's `str.isspace` for one character. */
  predicate IsSpace(c: char)
  {
    c == ' ' || ('\t' <= c <= '\r') || ('\U{1C}' <= c <= '\U{1F}')
    || c == '\U{85}' || c == '\U{A0}' || c == '\U{1680}'
    || ('\U{2000}' <= c <= '\U{200A}') || c == '\U{2028}' || c == '\U{2029}'
    || c == '\U{202F}' || c == '\U{205F}' || c == '\U{3000}'
  }

  predicate AllSpace(s: string)
  {
    forall i :: 0 <= i < |s| ==> IsSpace(s[i])
  }

  /** The number of leading whitespace characters of `s`. */
  function LeadingSpaces(s: string): (k: nat)
    ensures k <= |s|
    ensures forall i :: 0 <= i < k ==> IsSpace(s[i])
    ensures k == |s| || !IsSpace(s[k])
  {
    if |s| > 0 && IsSpace(s[0]) then 1 + LeadingSpaces(s[1..]) else 0
  }

  /** Where the trailing whitespace of `s` begins. */
  function TrailingStart(s: string): (k: nat)
    ensures k <= |s|
    ensures forall i :: k <= i < |s| ==> IsSpace(s[i])
    ensures k == 0 || !IsSpace(s[k - 1])
  {
    if |s| > 0 && IsSpace(s[|s| - 1]) then TrailingStart(s[..|s| - 1]) else |s|
  }

  /**
   * Python's `str.strip()`: `s` with whitespace removed at both ends, that
   * is, the slice of `s` that leaves only whitespace before and after it
   * and neither starts nor ends with whitespace.
   */
  function Strip(s: string): (r: string)
    ensures exists a, b :: 0 <= a <= b <= |s| && r == s[a..b] && AllSpace(s[..a]) && AllSpace(s[b..])
    ensures r == [] || (!IsSpace(r[0]) && !IsSpace(r[|r| - 1]))
  {
    var a := LeadingSpaces(s);
    var t := s[a..];
    var k := TrailingStart(t);
    assert t[..k] == s[a..a + k];
    assert forall i :: a + k <= i < |s| ==> IsSpace(s[i]) by {
      forall i | a + k <= i < |s| ensures IsSpace(s[i]) { assert t[i - a] == s[i]; }
    }
    SliceBetweenSpaces(s, a, a + k);
    t[..k]
  }

  /** A slice with only whitespace before and after it is such a slice. */
  lemma SliceBetweenSpaces(s: string, a: nat, b: nat)
    requires a <= b <= |s|
    requires forall i :: 0 <= i < a ==> IsSpace(s[i])
    requires forall i :: b <= i < |s| ==> IsSpace(s[i])
    ensures exists a', b' :: 0 <= a' <= b' <= |s| && s[a..b] == s[a'..b'] && AllSpace(s[..a']) && AllSpace(s[b'..])
  {
    assert AllSpace(s[..a]) && AllSpace(s[b..]);
  }

  /** Whitespace only before `a` and from `b` on, so a non-space character lies between them. */
  lemma NonSpaceInside(s: string, a: nat, b: nat, i: nat)
    requires a <= b <= |s| && AllSpace(s[..a]) && AllSpace(s[b..])
    requires i < |s| && !IsSpace(s[i])
    ensures a <= i < b
  {
  }

  /** A slice of `s` that cuts only whitespace and keeps none at its ends: `a`, `b` bound it. */
  predicate TrimmedSlice(s: string, a: nat, b: nat)
  {
    a <= b <= |s| && AllSpace(s[..a]) && AllSpace(s[b..]) && (a == b || (!IsSpace(s[a]) && !IsSpace(s[b - 1])))
  }

  /** There is at most one such slice. */
  lemma TrimmedSliceUnique(s: string, a: nat, b: nat, c: nat, d: nat)
    requires TrimmedSlice(s, a, b) && TrimmedSlice(s, c, d)
    ensures s[a..b] == s[c..d]
  {
    if a < b {
      NonSpaceInside(s, c, d, a);
      NonSpaceInside(s, c, d, b - 1);
      NonSpaceInside(s, a, b, c);
      NonSpaceInside(s, a, b, d - 1);
    } else if c < d {
      NonSpaceInside(s, a, b, c);
    }
  }

  /**
   * The two clauses of `Strip` pin the result down: any slice of `s` with
   * only whitespace around it and no whitespace at its ends is `Strip(s)`.
   */
  lemma StripCharacterized(s: string, a: nat, b: nat)
    requires a <= b <= |s| && AllSpace(s[..a]) && AllSpace(s[b..])
    requires s[a..b] == [] || (!IsSpace(s[a]) && !IsSpace(s[b - 1]))
    ensures s[a..b] == Strip(s)
  {
    var r := Strip(s);
    var c, d :| 0 <= c <= d <= |s| && r == s[c..d] && AllSpace(s[..c]) && AllSpace(s[d..]);
    assert c < d ==> s[c] == r[0] && s[d - 1] == r[|r| - 1];
    assert TrimmedSlice(s, c, d);
    assert TrimmedSlice(s, a, b);
    TrimmedSliceUnique(s, a, b, c, d);
  }

  /** Stripping yields nothing exactly when the string is whitespace only. */
  lemma StripEmptyIffAllSpace(s: string)
    ensures Strip(s) == [] <==> AllSpace(s)
  {
    var k := LeadingSpaces(s);
    var t := s[k..];
    if Strip(s) == [] {
      assert TrailingStart(t) == 0;
      assert k == |s|;
    }
  }

  /** The "first last" name that `display_name` falls back to, before stripping. */
  function FullName(u: User): string
  {
    u.firstName + " " + u.lastName
  }

  /**
   * `User.display_name`: the FIO if it is filled in, else the stripped
   * "first last" name if that is not blank, else the username.
   */
  function DisplayName(u: User): (r: string)
    ensures u.fio != "" ==> r == u.fio
    ensures u.fio == "" && !AllSpace(FullName(u)) ==> r == Strip(FullName(u)) && r != ""
    ensures u.fio == "" && AllSpace(u.firstName) && AllSpace(u.lastName) ==> r == u.username
    ensures u.fio != "" || u.username != "" ==> r != ""
  {
    StripEmptyIffAllSpace(FullName(u));
    if u.fio != "" then u.fio
    else
      var full := Strip(FullName(u));
      if full != "" then full else u.username
  }
}
