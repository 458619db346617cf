/** The browser-side token helpers (Front_End/src/utils/tokenUtils.js): expiry of
    the `exp` claim (section 4.1.4 of RFC 7519), the time left before it, its
    display, the Authorization header and the role-rank checker.

    Times are integers of milliseconds, as `Date.now()` returns them; `exp` is a
    NumericDate in whole seconds, so `exp < Date.now() / 1000` is
    `1000 * exp < now`. Decoding the token (`jwtDecode`) is a foreign call: its
    outcome is a parameter, None when it throws. */
module TokenUtils {
  import opened Common

  /** The part of a decoded payload these helpers read. */
  datatype Payload = Payload(exp: Option<int>)

  /** A string that JavaScript treats as true: present and non-empty. */
  predicate Present(s: Option<string>) {
    s.Some? && s.value != []
  }

  /** `decodeToken`: null for a missing or empty token, else what the decoder gave. */
  function DecodeToken(token: Option<string>, decoded: Option<Payload>): (r: Option<Payload>)
    ensures r.Some? ==> Present(token) && r == decoded
    ensures Present(token) ==> r == decoded
  {
    if !Present(token) then None else decoded
  }

  /** The expiry instant in milliseconds, when the payload has a truthy `exp`. */
  function ExpiryMs(token: Option<string>, decoded: Option<Payload>): (r: Option<int>)
    ensures r.Some? <==> Present(token) && decoded.Some? && decoded.value.exp.Some? && decoded.value.exp.value != 0
    ensures r.Some? ==> r.value == 1000 * decoded.value.exp.value
  {
    match DecodeToken(token, decoded)
    case None => None
    case Some(p) =>
      if p.exp.None? || p.exp.value == 0 then None else Some(1000 * p.exp.value)
  }

  /** `isTokenExpired`. */
  predicate IsTokenExpired(token: Option<string>, decoded: Option<Payload>, now: int) {
    match ExpiryMs(token, decoded)
    case None => true
    case Some(e) => e < now
  }

  /** `getTokenTimeRemaining`, in milliseconds: the time left until expiry,
      and zero once expired or when there is no expiry to read. */
  function TimeRemaining(token: Option<string>, decoded: Option<Payload>, now: int): (r: nat)
    ensures ExpiryMs(token, decoded).None? ==> r == 0
    ensures ExpiryMs(token, decoded).Some? && ExpiryMs(token, decoded).value >= now ==>
      r == ExpiryMs(token, decoded).value - now
    ensures ExpiryMs(token, decoded).Some? && ExpiryMs(token, decoded).value < now ==> r == 0
    ensures IsTokenExpired(token, decoded, now) ==> r == 0
  {
    match ExpiryMs(token, decoded)
    case None => 0
    case Some(e) => if e - now > 0 then e - now else 0
  }

  /** `isTokenValid`. */
  predicate IsTokenValid(token: Option<string>, decoded: Option<Payload>, now: int) {
    Present(token) && !IsTokenExpired(token, decoded, now)
  }

  /** A payload with a non-zero `exp` stops being valid strictly after it:
      `exp == now` still counts as not expired. */
  lemma ExpiryBoundary(token: string, exp: int, now: int)
    requires token != [] && exp != 0
    ensures IsTokenExpired(Some(token), Some(Payload(Some(exp))), now) <==> now > 1000 * exp
    ensures !IsTokenExpired(Some(token), Some(Payload(Some(exp))), 1000 * exp)
  {
  }

  /** A token is valid exactly when it is present, decodes to a payload with a
      truthy `exp`, and that instant has not passed. */
  lemma ValidIff(token: Option<string>, decoded: Option<Payload>, now: int)
    ensures IsTokenValid(token, decoded, now) <==>
      Present(token) && decoded.Some? && decoded.value.exp.Some? && decoded.value.exp.value != 0 &&
      now <= 1000 * decoded.value.exp.value
  {
  }

  /** The time left and the expiry check agree: time left means not expired,
      and an expired token has none left. The only state with neither is the
      expiry instant itself. */
  lemma RemainingAgreesWithExpiry(token: Option<string>, decoded: Option<Payload>, now: int)
    ensures TimeRemaining(token, decoded, now) > 0 ==> !IsTokenExpired(token, decoded, now)
    ensures IsTokenExpired(token, decoded, now) ==> TimeRemaining(token, decoded, now) == 0
    ensures TimeRemaining(token, decoded, now) == 0 && !IsTokenExpired(token, decoded, now) <==>
            ExpiryMs(token, decoded) == Some(now)
  {
  }

  /** As time passes the time left never grows and an expired token stays expired. */
  lemma {:induction false} ExpiryIsPermanent(token: Option<string>, decoded: Option<Payload>, now: int, later: int)
    requires now <= later
    ensures TimeRemaining(token, decoded, later) <= TimeRemaining(token, decoded, now)
    ensures IsTokenExpired(token, decoded, now) ==> IsTokenExpired(token, decoded, later)
    ensures IsTokenValid(token, decoded, later) ==> IsTokenValid(token, decoded, now)
  {
  }

  // ---------------------------------------------------------------------------
  // formatTimeRemaining
  // ---------------------------------------------------------------------------

  datatype Clock = Clock(hours: nat, minutes: nat, seconds: nat)

  const MsPerHour: nat := 3600000
  const MsPerMinute: nat := 60000
  const MsPerSecond: nat := 1000

  /** Whole hours, minutes and seconds in a non-negative span: the reading a
      stopwatch would show, truncated to the second. */
  function Breakdown(ms: nat): (c: Clock)
    ensures c.minutes < 60 && c.seconds < 60
    ensures MsPerHour * c.hours + MsPerMinute * c.minutes + MsPerSecond * c.seconds <= ms
    ensures ms < MsPerHour * c.hours + MsPerMinute * c.minutes + MsPerSecond * c.seconds + MsPerSecond
  {
    var h := ms / MsPerHour;
    var rest := ms % MsPerHour;
    Clock(h, rest / MsPerMinute, rest % MsPerMinute / MsPerSecond)
  }

  /** `formatTimeRemaining`, given the span in milliseconds. */
  function FormatTimeRemaining(ms: int): string {
    if ms <= 0 then "Expirado"
    else
      var hours := ms / MsPerHour;
      var minutes := ms % MsPerHour / MsPerMinute;
      if hours > 0 then NatToString(hours) + "h " + NatToString(minutes) + "m"
      else if minutes > 0 then NatToString(minutes) + "m"
      else NatToString(ms / MsPerSecond) + "s"
  }

  /** The text names the largest non-zero unit of the stopwatch reading: hours
      and minutes from an hour up, minutes from a minute up, else seconds; and
      "Expirado" appears exactly when nothing is left. */
  lemma FormatByMagnitude(ms: int)
    ensures FormatTimeRemaining(ms) == "Expirado" <==> ms <= 0
    ensures ms >= MsPerHour ==> var c := Breakdown(ms);
      FormatTimeRemaining(ms) == NatToString(c.hours) + "h " + NatToString(c.minutes) + "m"
    ensures MsPerMinute <= ms < MsPerHour ==> var c := Breakdown(ms);
      c.hours == 0 && c.minutes > 0 && FormatTimeRemaining(ms) == NatToString(c.minutes) + "m"
    ensures 0 < ms < MsPerMinute ==> var c := Breakdown(ms);
      c.hours == 0 && c.minutes == 0 && FormatTimeRemaining(ms) == NatToString(c.seconds) + "s"
  {
    if ms > 0 {
      var r := FormatTimeRemaining(ms);
      assert IsDigit(r[0]);
      assert r != "Expirado" by { assert !IsDigit('E'); }
    }
  }

  // ---------------------------------------------------------------------------
  // getAuthHeaders
  // ---------------------------------------------------------------------------

  const BearerPrefix: string := "Bearer "

  /** `getAuthHeaders(token)`: the given token, or else the stored one. */
  function GetAuthHeaders(token: Option<string>, stored: Option<string>): (h: map<string, string>)
    ensures h == map[] <==> !Present(token) && !Present(stored)
    ensures h != map[] ==> h.Keys == {"Authorization", "Content-Type"} && h["Content-Type"] == "application/json"
    ensures Present(token) ==> h["Authorization"] == BearerPrefix + token.value
    ensures !Present(token) && Present(stored) ==> h["Authorization"] == BearerPrefix + stored.value
  {
    var t := if Present(token) then token else stored;
    if !Present(t) then map[]
    else
      var h := map["Authorization" := BearerPrefix + t.value, "Content-Type" := "application/json"];
      assert "Authorization" in h;
      h
  }

  // ---------------------------------------------------------------------------
  // createRoleChecker
  // ---------------------------------------------------------------------------

  /** The role names in increasing rank. */
  const Ladder: seq<string> := ["Cliente", "Empleado", "Manager", "Administrador"]

  /** `roles[userRole]`: undefined for any other name. */
  function Rank(role: string): (r: Option<nat>)
    ensures r.Some? <==> role in Ladder
    ensures r.Some? ==> 1 <= r.value <= |Ladder| && Ladder[r.value - 1] == role
  {
    if role == "Cliente" then Some(1)
    else if role == "Empleado" then Some(2)
    else if role == "Manager" then Some(3)
    else if role == "Administrador" then Some(4)
    else None
  }

  /** `hasMinimumRole`: a comparison with undefined on either side is false. */
  predicate HasMinimumRole(userRole: string, minimumRole: string) {
    Rank(userRole).Some? && Rank(minimumRole).Some? && Rank(userRole).value >= Rank(minimumRole).value
  }

  predicate IsClient(userRole: string) { userRole == "Cliente" }
  predicate IsEmployee(userRole: string) { userRole == "Empleado" }
  predicate IsManager(userRole: string) { userRole == "Manager" }
  predicate IsAdmin(userRole: string) { userRole == "Administrador" }

  /** `canAccess(requiredRoles)`. */
  predicate CanAccess(userRole: string, requiredRoles: seq<string>) {
    userRole in requiredRoles
  }

  /** Position in the ladder, for names on it. */
  function LadderIndex(role: string): (i: nat)
    requires role in Ladder
    ensures i < |Ladder| && Ladder[i] == role
  {
    if role == Ladder[0] then 0
    else if role == Ladder[1] then 1
    else if role == Ladder[2] then 2
    else 3
  }

  /** Against the ladder: a role reaches a minimum exactly when both are on it
      and it stands no lower. */
  lemma MinimumRoleIsLadderOrder(userRole: string, minimumRole: string)
    ensures HasMinimumRole(userRole, minimumRole) <==>
      userRole in Ladder && minimumRole in Ladder && LadderIndex(userRole) >= LadderIndex(minimumRole)
  {
  }

  /** Reflexive on the ladder, false for every other name, transitive, and total
      on the ladder. */
  lemma MinimumRoleIsOrder(a: string, b: string, c: string)
    ensures HasMinimumRole(a, a) <==> a in Ladder
    ensures HasMinimumRole(a, b) && HasMinimumRole(b, c) ==> HasMinimumRole(a, c)
    ensures a in Ladder && b in Ladder ==> HasMinimumRole(a, b) || HasMinimumRole(b, a)
    ensures HasMinimumRole(a, b) && HasMinimumRole(b, a) ==> a == b
  {
  }

  /** The administrator meets every minimum on the ladder; a client meets only
      its own. */
  lemma AdminMeetsEveryMinimum(userRole: string, minimumRole: string)
    requires minimumRole in Ladder
    ensures IsAdmin(userRole) ==> HasMinimumRole(userRole, minimumRole)
    ensures IsClient(userRole) ==> (HasMinimumRole(userRole, minimumRole) <==> IsClient(minimumRole))
  {
  }

  /** `canAccess` is membership: a union of lists admits exactly the roles
      either one admits. */
  lemma CanAccessUnion(userRole: string, xs: seq<string>, ys: seq<string>)
    ensures CanAccess(userRole, xs + ys) <==> CanAccess(userRole, xs) || CanAccess(userRole, ys)
    ensures !CanAccess(userRole, [])
  {
  }

  /** The role names the back end stores and signs into tokens. */
  const IssuedRoles: seq<string> := ["cliente", "empleado", "administrador"]

  /** As written the checker's names are capitalised, so no role the back end
      issues meets any minimum, not even the administrator. */
  lemma IssuedRolesNeverRank(userRole: string, minimumRole: string)
    requires userRole in IssuedRoles
    ensures !HasMinimumRole(userRole, minimumRole)
  {
  }

  /** The rank meant for the back end's role names: either spelling. */
  function RankFixed(role: string): (r: Option<nat>)
    ensures Rank(role).Some? ==> r == Rank(role)
    ensures role in IssuedRoles ==> r.Some?
  {
    if role == "cliente" then Some(1)
    else if role == "empleado" then Some(2)
    else if role == "manager" then Some(3)
    else if role == "administrador" then Some(4)
    else Rank(role)
  }

  predicate HasMinimumRoleFixed(userRole: string, minimumRole: string) {
    RankFixed(userRole).Some? && RankFixed(minimumRole).Some? && RankFixed(userRole).value >= RankFixed(minimumRole).value
  }

  /** The corrected check agrees with the written one on the capitalised names,
      and gives the back end's administrator every minimum on the ladder and
      its client only the client's. */
  lemma FixedRanksIssuedRoles(userRole: string, minimumRole: string)
    requires minimumRole in Ladder
    ensures userRole in Ladder ==> (HasMinimumRoleFixed(userRole, minimumRole) <==> HasMinimumRole(userRole, minimumRole))
    ensures HasMinimumRoleFixed("administrador", minimumRole)
    ensures HasMinimumRoleFixed("cliente", minimumRole) <==> minimumRole == "Cliente"
  {
  }
}
