/** Who is asking: the two cookie checks the handlers use and the two logins
    that issue those cookies. The cookie values are taken as sent; percent
    encoding and decoding are not part of this model. */
module Identity {
  import opened Base
  import opened Text
  import opened Db

  const BoothKey := "booth="
  const AdminPair := "adm=1"
  /** The admin password used when the environment does not set one. */
  const DefaultAdminPassword := "somangberlin2025"

  /** The cookie header cut at `;`, each piece trimmed. */
  function Segments(raw: string): seq<string> {
    TrimAll(Split(raw, ';'))
  }

  /** Index of the first segment that starts with `booth=`, if any. */
  function FirstBooth(segs: seq<string>): (r: Option<nat>)
    ensures r.Some? ==> r.value < |segs| && StartsWith(segs[r.value], BoothKey)
    ensures r.Some? ==> forall j :: 0 <= j < r.value ==> !StartsWith(segs[j], BoothKey)
    ensures r.None? ==> forall j :: 0 <= j < |segs| ==> !StartsWith(segs[j], BoothKey)
  {
    if |segs| == 0 then None
    else if StartsWith(segs[0], BoothKey) then Some(0)
    else match FirstBooth(segs[1..])
      case None => None
      case Some(k) => Some(k + 1)
  }

  /** getBooth: the booth name of the request, "" when there is none. It is
      the value of the first `booth=` segment, cut at the next `=`. */
  function GetBooth(raw: string): (r: string)
    ensures '=' !in r
    ensures FirstBooth(Segments(raw)).None? ==> r == ""
    ensures FirstBooth(Segments(raw)).Some? ==>
      var v := Segments(raw)[FirstBooth(Segments(raw)).value][|BoothKey|..];
      StartsWith(v, r) && (|r| == |v| || v[|r|] == '=')
  {
    var segs := Segments(raw);
    match FirstBooth(segs)
    case None => ""
    case Some(k) =>
      var v := segs[k][|BoothKey|..];
      SplitAfterKey(segs[k]);
      SplitHead(v, '=');
      SplitPieces(v, '=');
      Split(segs[k], '=')[1]
  }

  /** Cutting a `booth=...` segment at `=` gives "booth" and then the pieces
      of the value. */
  lemma SplitAfterKey(seg: string)
    requires StartsWith(seg, BoothKey)
    ensures Split(seg, '=') == ["booth"] + Split(seg[|BoothKey|..], '=')
  {
    var v := seg[|BoothKey|..];
    assert seg == "booth" + ['='] + v;
    SplitAround("booth", v, '=');
    SplitWithout("booth", '=');
  }

  /** A tight header without `;` is a single segment. */
  lemma SingleSegment(raw: string)
    requires ';' !in raw && Tight(raw)
    ensures Segments(raw) == [raw]
  {
    SplitWithout(raw, ';');
    TrimPadded("", raw, "");
    assert "" + raw + "" == raw;
  }

  /** checkLogin: some trimmed segment is exactly `adm=1`. */
  predicate IsAdmin(raw: string) {
    AdminPair in Segments(raw)
  }

  /** The pair a browser sends back after a booth login. */
  function BoothCookie(username: string): string {
    BoothKey + username
  }

  /** ADMIN_PASSWORD: the environment's value unless it is missing or empty. */
  function AdminPassword(env: Option<string>): (r: string)
    ensures env.Some? && env.value != "" ==> r == env.value
    ensures env.None? || env.value == "" ==> r == DefaultAdminPassword
  {
    if env.Some? && env.value != "" then env.value else DefaultAdminPassword
  }

  /** POST /login: the right password earns the `adm=1` cookie. */
  function AdminLogin(configured: string, password: Option<string>): (r: Option<string>)
    ensures r.Some? <==> password == Some(configured)
    ensures r.Some? ==> IsAdmin(r.value)
  {
    if password == Some(configured) then
      SingleSegment(AdminPair);
      Some(AdminPair)
    else None
  }

  /** POST /booth/login: a stored booth whose password matches earns the
      `booth=<username>` cookie. */
  function BoothLogin(s: Store, username: string, password: Option<string>): (r: Option<string>)
    ensures r.Some? <==> username in s.booths && password == Some(s.booths[username].password)
    ensures r.Some? ==> r.value == BoothCookie(username)
  {
    match GetBoothByUser(s, username)
    case Some(b) => if password == Some(b.password) then Some(BoothCookie(username)) else None
    case None => None
  }

  /** A `;` in the header splits its segments between the two sides. */
  lemma SegmentsAround(a: string, b: string)
    ensures Segments(a + [';'] + b) == Segments(a) + Segments(b)
  {
    SplitAround(a, b, ';');
  }

  /** The header is an admin's exactly when one of its two sides is. */
  lemma AdminEitherSide(a: string, b: string)
    ensures IsAdmin(a + [';'] + b) <==> IsAdmin(a) || IsAdmin(b)
  {
    SegmentsAround(a, b);
  }

  /** Whatever other cookies come first, an `adm=1` pair admits. */
  lemma AdminCookieAdmits(others: string)
    ensures IsAdmin(others + "; " + AdminPair)
  {
    var tail := " " + AdminPair;
    PaddedAdminSegment(tail);
    assert others + "; " + AdminPair == others + [';'] + tail;
    AdminLast(others, tail);
  }

  /** The pair after "; " is one segment, trimmed to `adm=1`. */
  lemma PaddedAdminSegment(tail: string)
    requires tail == " " + AdminPair
    ensures Segments(tail) == [AdminPair]
  {
    assert ';' !in tail;
    PaddedSegment(" ", AdminPair);
  }

  /** Text without `;` is one segment: its trimmed core. */
  lemma PaddedSegment(pre: string, core: string)
    requires AllSpace(pre) && Tight(core) && ';' !in pre + core
    ensures Segments(pre + core) == [core]
  {
    SplitWithout(pre + core, ';');
    TrimPadded(pre, core, "");
    assert pre + core + "" == pre + core;
  }

  lemma AdminLast(others: string, tail: string)
    requires Segments(tail) == [AdminPair]
    ensures IsAdmin(others + [';'] + tail)
  {
    SegmentsAround(others, tail);
    var segs := Segments(others) + Segments(tail);
    assert segs[|segs| - 1] == AdminPair;
  }

  /** When the first `booth=` segment's value has no `=`, that whole value
      is the booth name. */
  lemma GetBoothWhole(raw: string, k: nat)
    requires FirstBooth(Segments(raw)) == Some(k)
    requires '=' !in Segments(raw)[k][|BoothKey|..]
    ensures GetBooth(raw) == Segments(raw)[k][|BoothKey|..]
  {
  }

  /** The login cookie starts with `booth=`, carries the name after it, and
      is tight and free of `;` when the name is. */
  lemma BoothCookieShape(username: string)
    requires ';' !in username && Tight(username)
    ensures StartsWith(BoothCookie(username), BoothKey)
    ensures BoothCookie(username)[|BoothKey|..] == username
    ensures ';' !in BoothCookie(username)
    ensures Tight(BoothCookie(username))
  {
  }

  /** A booth name that survives cookie transport (no `;` or `=` in it, no
      space at either end) is read back from the login cookie. */
  lemma {:induction false} BoothCookieRoundTrip(username: string)
    requires ';' !in username && '=' !in username
    requires Tight(username)
    ensures GetBooth(BoothCookie(username)) == username
  {
    var raw := BoothCookie(username);
    BoothCookieShape(username);
    SingleSegment(raw);
    LeadingBooth(raw, Segments(raw), username);
  }

  /** A header whose first segment is a `booth=` pair with an `=`-free value
      names that value. */
  lemma LeadingBooth(raw: string, segs: seq<string>, username: string)
    requires segs == Segments(raw) && |segs| >= 1
    requires StartsWith(segs[0], BoothKey) && segs[0][|BoothKey|..] == username
    requires '=' !in username
    ensures GetBooth(raw) == username
  {
  }

  /** The first `booth=` pair wins over any later one. */
  lemma {:induction false} FirstBoothWins(username: string, later: string)
    requires ';' !in username && '=' !in username
    requires Tight(username)
    ensures GetBooth(BoothCookie(username) + [';'] + later) == username
  {
    var raw := BoothCookie(username);
    var full := raw + [';'] + later;
    BoothCookieShape(username);
    SingleSegment(raw);
    SegmentsAround(raw, later);
    var segs := Segments(full);
    assert segs == [raw] + Segments(later);
    LeadingBooth(full, segs, username);
  }
}
