// An account's logo and the files behind logos (internals/app/brand/service.go): SetLogo,
// RemoveLogo, dropLogo and Snapshot, with storage and database failures as parameters.
module LogoShelf {
  import opened Basics
  import Downscale

  type User = string
  type Key = string

  /** brands.logo_key ("" without a row) and the stored logo files. */
  datatype Shelf = Shelf(brands: map<User, Key>, blobs: set<Key>)

  /** What the database and the storage answer during one call. */
  datatype Luck = Luck(decoded: bool, put: Put, saved: bool, checked: bool, deleted: bool)

  /** An uploaded file: its size, whether its header is a PNG's or JPEG's, and the sides it names. */
  datatype Upload = Upload(bytes: nat, known: bool, width: int, height: int)

  const MAX_LOGO_BYTES := 3 * 1024 * 1024
  const MAX_LOGO_DIM := 6000

  predicate Acceptable(u: Upload) {
    && u.bytes <= MAX_LOGO_BYTES && u.known
    && 16 <= u.width <= MAX_LOGO_DIM && 16 <= u.height <= MAX_LOGO_DIM
    && u.width * u.height <= Downscale.MAX_LOGO_PIXELS
  }

  function LogoKey(user: User, sum: string): Key {
    "brands/" + user + "/" + sum + ".png"
  }

  function Current(s: Shelf, user: User): Key {
    if user in s.brands then s.brands[user] else ""
  }

  /** dropLogo: an old file goes unless it is the current one or an unfinished job needs it. */
  function Dropped(s: Shelf, prev: Key, current: Key, inUse: set<Key>, luck: Luck): Shelf {
    if prev != "" && prev != current && luck.checked && prev !in inUse && luck.deleted then
        s.(blobs := s.blobs - {prev})
    else s
  }

  function AfterSetLogo(s: Shelf, user: User, file: Upload, sum: string, inUse: set<Key>, luck: Luck): Shelf {
    var key := LogoKey(user, sum);
    if !Acceptable(file) || !luck.decoded || luck.put.NotStored? then s
    else if luck.put.Stranded? || !luck.saved then s.(blobs := s.blobs + {key})
    else Dropped(Shelf(s.brands[user := key], s.blobs + {key}), Current(s, user), key, inUse, luck)
  }

  function AfterRemoveLogo(s: Shelf, user: User, inUse: set<Key>, luck: Luck): Shelf {
    if Current(s, user) == "" || !luck.saved then s
    else Dropped(s.(brands := s.brands[user := ""]), Current(s, user), "", inUse, luck)
  }

  /** User ids are UUIDs: no slash. */
  predicate IsUserId(user: User) {
    '/' !in user
  }

  lemma KeysDiffer(u: User, v: User, s: string, t: string)
    requires IsUserId(u) && IsUserId(v) && u != v
    ensures LogoKey(u, s) != LogoKey(v, t)
  {
    var a, b := LogoKey(u, s), LogoKey(v, t);
    assert a[7..7 + |u|] == u && b[7..7 + |v|] == v;
    assert a[7 + |u|] == '/' && b[7 + |v|] == '/';
    if |u| < |v| {
      assert b[7 + |u|] == v[|u|];
    } else if |v| < |u| {
      assert a[7 + |v|] == u[|v|];
    }
  }

  /** A key names its account and its picture: one account's different pictures have different files. */
  lemma KeyIsOfPicture(u: User, v: User, s: string, t: string)
    requires IsUserId(u) && IsUserId(v)
    ensures LogoKey(u, s) == LogoKey(v, t) <==> u == v && s == t
  {
    if u != v {
      KeysDiffer(u, v, s, t);
    } else if LogoKey(u, s) == LogoKey(v, t) {
      var a, b := LogoKey(u, s), LogoKey(v, t);
      assert |a| == 12 + |u| + |s| && |b| == 12 + |v| + |t|;
      assert a[8 + |u|..8 + |u| + |s|] == s && b[8 + |v|..8 + |v| + |t|] == t;
    }
  }

  /** Every current logo is the account's own file and is stored; so is everything in use. */
  ghost predicate Stocked(s: Shelf, inUse: set<Key>) {
    && (forall u :: u in s.brands && s.brands[u] != "" ==> s.brands[u] in s.blobs)
    && (forall u :: u in s.brands && s.brands[u] != "" ==> exists sum :: s.brands[u] == LogoKey(u, sum))
    && (forall u :: u in s.brands ==> IsUserId(u))
    && (forall key :: key in inUse ==> key in s.blobs)
  }

  lemma OthersKeepTheirs(s: Shelf, user: User, inUse: set<Key>, u: User)
    requires Stocked(s, inUse) && u in s.brands && u != user && IsUserId(user) && s.brands[u] != ""
    ensures Current(s, user) != "" ==> s.brands[u] != Current(s, user)
    ensures forall sum :: s.brands[u] != LogoKey(user, sum)
  {
    var a :| s.brands[u] == LogoKey(u, a);
    if Current(s, user) != "" {
      var b :| s.brands[user] == LogoKey(user, b);
      KeysDiffer(u, user, a, b);
    }
    forall sum ensures s.brands[u] != LogoKey(user, sum) {
      KeysDiffer(u, user, a, sum);
    }
  }

  lemma SetLogoKeeps(s: Shelf, user: User, file: Upload, sum: string, inUse: set<Key>, luck: Luck)
    requires Stocked(s, inUse) && IsUserId(user)
    ensures Stocked(AfterSetLogo(s, user, file, sum, inUse, luck), inUse)
  {
    hide LogoKey;
    forall u | u in s.brands && u != user && s.brands[u] != "" ensures s.brands[u] != Current(s, user) {
      OthersKeepTheirs(s, user, inUse, u);
    }
  }

  lemma RemoveLogoKeeps(s: Shelf, user: User, inUse: set<Key>, luck: Luck)
    requires Stocked(s, inUse) && IsUserId(user)
    ensures Stocked(AfterRemoveLogo(s, user, inUse, luck), inUse)
  {
    hide LogoKey;
    forall u | u in s.brands && u != user && s.brands[u] != "" ensures s.brands[u] != Current(s, user) {
      OthersKeepTheirs(s, user, inUse, u);
    }
  }

  /** The brand service: the same calls, in place. */
  class BrandService {
    var brands: map<User, Key>
    var blobs: set<Key>

    function View(): Shelf
      reads this
    {
      Shelf(brands, blobs)
    }

    constructor ()
      ensures View() == Shelf(map[], {})
    {
      brands, blobs := map[], {};
    }

    method DropLogo(prev: Key, current: Key, inUse: set<Key>, luck: Luck)
      modifies this`blobs
      ensures View() == Dropped(old(View()), prev, current, inUse, luck)
    {
      if prev == "" || prev == current {
        return;
      }
      if !luck.checked {
        return;
      }
      if prev in inUse {
        return;
      }
      if luck.deleted {
        blobs := blobs - {prev};
      }
    }

    /** sum is the digest of the normalised picture. */
    method SetLogo(user: User, file: Upload, sum: string, inUse: set<Key>, luck: Luck) returns (ok: bool)
      modifies this
      ensures View() == AfterSetLogo(old(View()), user, file, sum, inUse, luck)
      // a PNG or JPEG of at most 3 MiB, 16 to 6000 pixels a side and 4 million in all
      ensures ok <==>
        && file.known && file.bytes <= 3145728
        && 16 <= file.width <= 6000 && 16 <= file.height <= 6000 && file.width * file.height <= 4000000
        && luck.decoded && luck.put.Stored? && luck.saved
      ensures ok ==> Current(View(), user) == LogoKey(user, sum) && LogoKey(user, sum) in blobs
      ensures !ok ==> brands == old(brands)
      ensures brands - {user} == old(brands) - {user}
      // the replaced file goes if it can and nobody needs it; a file is left behind only by a failure
      ensures ok ==> forall key :: key != LogoKey(user, sum) ==>
        (key in blobs <==>
           && key in old(blobs)
           && !(user in old(brands) && key == old(brands)[user] != ""
                && luck.checked && luck.deleted && key !in inUse))
      ensures !ok ==> blobs <= old(blobs) + {LogoKey(user, sum)} && old(blobs) <= blobs
      ensures !ok && (!luck.decoded || luck.put.NotStored?) ==> blobs == old(blobs)
    {
      if file.bytes > MAX_LOGO_BYTES {
        return false;
      }
      if !file.known {
        return false;
      }
      if file.width < 16 || file.height < 16 || file.width > MAX_LOGO_DIM || file.height > MAX_LOGO_DIM
        || file.width * file.height > Downscale.MAX_LOGO_PIXELS {
        return false;
      }
      if !luck.decoded {
        return false;
      }
      var key := "brands/" + user + "/" + sum + ".png";
      if luck.put.NotStored? {
        return false;
      }
      blobs := blobs + {key};
      if luck.put.Stranded? {
        return false;
      }
      var prev := if user in brands then brands[user] else "";
      if !luck.saved {
        return false;
      }
      brands := brands[user := key];
      DropLogo(prev, key, inUse, luck);
      ok := true;
    }

    method RemoveLogo(user: User, inUse: set<Key>, luck: Luck) returns (ok: bool)
      modifies this
      ensures View() == AfterRemoveLogo(old(View()), user, inUse, luck)
      ensures ok ==> Current(View(), user) == ""
      ensures ok <==> luck.saved || user !in old(brands) || old(brands)[user] == ""
      ensures !ok ==> View() == old(View())
      ensures brands - {user} == old(brands) - {user}
      ensures ok ==> forall key ::
        (key in blobs <==>
           && key in old(blobs)
           && !(user in old(brands) && key == old(brands)[user] != ""
                && luck.checked && luck.deleted && key !in inUse))
    {
      if user !in brands || brands[user] == "" {
        return true;
      }
      var prev := brands[user];
      if !luck.saved {
        return false;
      }
      brands := brands[user := ""];
      DropLogo(prev, "", inUse, luck);
      ok := true;
    }

    /** The logo frozen onto a new job: while the shelf is stocked, none or a stored file of the
        account's own. */
    method Snapshot(user: User) returns (key: Key)
      ensures key == if user in brands then brands[user] else ""
      ensures forall inUse :: Stocked(View(), inUse) && key != "" ==> 
          key in blobs && exists sum :: key == LogoKey(user, sum)
    {
      key := if user in brands then brands[user] else "";
    }
  }
}
