/**
 * The upload storage callbacks: the folder a user's upload goes to, and the
 * public id `timestamp-name` where the name loses its final extension through
 * `originalname.replace(/\.[^/.]+$/, '')`.
 */
module Cloudinary {
  import opened Wrappers
  import opened Text

  const FolderPrefix: string := "chatbot-uploads/"
  const AnonymousUser: string := "anonymous"

  /** `req.body?.userId || req.query?.userId || 'anonymous'`, under the prefix. */
  function Folder(bodyUserId: Option<string>, queryUserId: Option<string>): (r: string)
    ensures Truthy(bodyUserId) ==> r == FolderPrefix + bodyUserId.value
    ensures !Truthy(bodyUserId) && Truthy(queryUserId) ==> r == FolderPrefix + queryUserId.value
    ensures !Truthy(bodyUserId) && !Truthy(queryUserId) ==> r == FolderPrefix + AnonymousUser
  {
    var userId := if Truthy(bodyUserId) then bodyUserId.value
                  else if Truthy(queryUserId) then queryUserId.value
                  else AnonymousUser;
    FolderPrefix + userId
  }

  /** The older callback: `req.body?.userId || 'anonymous'`; the query string
      is not consulted. */
  function LegacyFolder(bodyUserId: Option<string>): (r: string)
    ensures Truthy(bodyUserId) ==> r == FolderPrefix + bodyUserId.value
    ensures !Truthy(bodyUserId) ==> r == FolderPrefix + AnonymousUser
  {
    FolderPrefix + (if Truthy(bodyUserId) then bodyUserId.value else AnonymousUser)
  }

  /** An empty user id counts as absent and falls through to the next option. */
  lemma EmptyUserIdFallsThrough(queryUserId: Option<string>)
    ensures Folder(Some(""), queryUserId) == Folder(None, queryUserId)
    ensures LegacyFolder(Some("")) == LegacyFolder(None) == FolderPrefix + AnonymousUser
  {
  }

  /** The two callbacks agree exactly when the body holds a truthy user id,
      or the query string holds none, or the query's id is `anonymous` itself. */
  lemma FoldersAgree(bodyUserId: Option<string>, queryUserId: Option<string>)
    ensures Folder(bodyUserId, queryUserId) == LegacyFolder(bodyUserId)
        <==> Truthy(bodyUserId) || !Truthy(queryUserId) || queryUserId.value == AnonymousUser
  {
    if !Truthy(bodyUserId) && Truthy(queryUserId) && Folder(bodyUserId, queryUserId) == LegacyFolder(bodyUserId) {
      AffixCancel(FolderPrefix, queryUserId.value, AnonymousUser);
    }
  }

  lemma AffixCancel(p: string, a: string, b: string)
    requires p + a == p + b
    ensures a == b
  {
    assert a == (p + a)[|p|..];
    assert b == (p + b)[|p|..];
  }

  // ---------------------------------------------------------------------------
  // Extension stripping

  /** Where `/\.[^/.]+$/` can match: a `.` followed by a non-empty run of
      characters other than `.` and `/` that reaches the end. */
  predicate ExtensionMatchAt(s: string, i: int) {
    0 <= i && i + 1 < |s| && s[i] == '.'
    && forall j :: i < j < |s| ==> s[j] != '.' && s[j] != '/'
  }

  /** The pattern matches at most one place: the last `.`. */
  lemma ExtensionMatchUnique(s: string, i: int, k: int)
    requires ExtensionMatchAt(s, i) && ExtensionMatchAt(s, k)
    ensures i == k
  {
  }

  /** The index of the last `.` or `/`. */
  function LastDotOrSlash(s: string): (r: Option<nat>)
    ensures r.Some? ==> r.value < |s| && (s[r.value] == '.' || s[r.value] == '/')
    ensures r.Some? ==> forall j :: r.value < j < |s| ==> s[j] != '.' && s[j] != '/'
    ensures r.None? ==> forall j :: 0 <= j < |s| ==> s[j] != '.' && s[j] != '/'
  {
    if s == [] then None
    else if s[|s| - 1] == '.' || s[|s| - 1] == '/' then Some(|s| - 1)
    else LastDotOrSlash(s[..|s| - 1])
  }

  /** `name.replace(/\.[^/.]+$/, '')`: cuts the name at the match, if there is one. */
  function StripExtension(name: string): (r: string)
    ensures |r| <= |name| && r == name[..|r|]
    ensures forall i :: ExtensionMatchAt(name, i) ==> r == name[..i]
    ensures (forall i :: !ExtensionMatchAt(name, i)) ==> r == name
  {
    match LastDotOrSlash(name)
    case None => name
    case Some(i) =>
      if name[i] == '.' && i + 1 < |name| then
        assert ExtensionMatchAt(name, i);
        ExtensionAt(name, i);
        name[..i]
      else
        NoExtension(name, i);
        name
  }

  lemma ExtensionAt(name: string, i: int)
    requires ExtensionMatchAt(name, i)
    ensures forall k :: ExtensionMatchAt(name, k) ==> k == i
  {
    forall k | ExtensionMatchAt(name, k) ensures k == i {
      ExtensionMatchUnique(name, i, k);
    }
  }

  lemma NoExtension(name: string, i: nat)
    requires i < |name| && (name[i] == '.' || name[i] == '/')
    requires forall j :: i < j < |name| ==> name[j] != '.' && name[j] != '/'
    requires !(name[i] == '.' && i + 1 < |name|)
    ensures forall k :: !ExtensionMatchAt(name, k)
  {
    forall k | 0 <= k < i ensures !ExtensionMatchAt(name, k) {
      if k + 1 < |name| && name[k] == '.' {
        assert i > k && (name[i] == '.' || name[i] == '/');
      }
    }
  }

  /** Stripping removes nothing, or exactly one `.ext` at the end: the cut
      is where the pattern matches. */
  lemma StripRemovesOneExtension(name: string)
    ensures var r := StripExtension(name);
            r == name || ExtensionMatchAt(name, |r|)
  {
    if exists i :: ExtensionMatchAt(name, i) {
      var i :| ExtensionMatchAt(name, i);
      assert |StripExtension(name)| == i;
    }
  }

  /** Only the final extension goes. */
  lemma OnlyLastExtension()
    ensures StripExtension("a.tar.gz") == "a.tar"
    ensures StripExtension(".pdf") == ""
    ensures StripExtension("report.pdf") == "report"
  {
    assert ExtensionMatchAt("a.tar.gz", 5);
    assert ExtensionMatchAt(".pdf", 0);
    assert ExtensionMatchAt("report.pdf", 6);
  }

  /** A name without a `.` keeps its text. */
  lemma NoDotUnchanged(name: string)
    requires forall j :: 0 <= j < |name| ==> name[j] != '.'
    ensures StripExtension(name) == name
  {
  }

  /** A name ending in `.` keeps its text: the run after the dot is empty. */
  lemma TrailingDotUnchanged(name: string)
    requires name != [] && name[|name| - 1] == '.'
    ensures StripExtension(name) == name
  {
  }

  /** A name with a `/` after its last `.` keeps its text. */
  lemma SlashAfterDotUnchanged(name: string, d: nat, k: nat)
    requires d < k < |name| && name[d] == '.' && name[k] == '/'
    requires forall j :: d < j < |name| ==> name[j] != '.'
    ensures StripExtension(name) == name
  {
    forall i ensures !ExtensionMatchAt(name, i) {
      if 0 <= i < d {
        assert name[d] == '.';
      } else if i == d {
        assert name[k] == '/';
      }
    }
  }

  // ---------------------------------------------------------------------------
  // Public id

  /** `${timestamp}-${originalName}` with the extension stripped. */
  function PublicId(timestamp: nat, originalname: string): string {
    NatToString(timestamp) + "-" + StripExtension(originalname)
  }

  /** The public id splits at its first `-` into the decimal timestamp and the
      stripped name. */
  lemma PublicIdParts(timestamp: nat, originalname: string)
    ensures var id := PublicId(timestamp, originalname);
            var t := NatToString(timestamp);
            && IndexOf(id, "-") == Some(|t|)
            && id[..|t|] == t
            && id[|t| + 1..] == StripExtension(originalname)
  {
    var id := PublicId(timestamp, originalname);
    var t := NatToString(timestamp);
    assert id[|t|..|t| + 1] == "-";
    forall j | 0 <= j < |t| ensures id[j] != "-"[0] {
      assert id[j] == t[j];
    }
    IndexOfFirst(id, "-", |t|);
  }
}
