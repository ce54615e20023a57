/**
 * The backend endpoint table: fixed URLs under one base, and builders that
 * append an id (a string or a number, rendered as a template literal
 * renders it).
 */
module Api {
  import opened Common
  import opened JsText

  const BaseUrl: string := "https://ems-backend-tgfr.onrender.com/api"

  /** An id as the builders accept it: `string | number`. */
  datatype Id = TextId(text: string) | NumberId(n: int)

  function DigitChar(d: nat): char
    requires d < 10
  {
    "0123456789"[d]
  }

  /** The decimal digits of a natural number, most significant first. */
  function Decimal(n: nat): (s: string)
    ensures |s| >= 1 && AllDigits(s) && IsAsciiDigit(s[0])
    decreases n
  {
    if n < 10 then [DigitChar(n)] else Decimal(n / 10) + [DigitChar(n % 10)]
  }

  function DigitsValue(s: string): int
    requires AllDigits(s)
  {
    if s == [] then 0 else 10 * DigitsValue(s[..|s| - 1]) + (s[|s| - 1] as int - '0' as int)
  }

  /** Reading the digits back gives the number: decimal rendering loses
      nothing. */
  lemma {:induction false} DecimalRoundTrip(n: nat)
    ensures DigitsValue(Decimal(n)) == n
    decreases n
  {
    if n >= 10 {
      DecimalRoundTrip(n / 10);
      assert Decimal(n)[..|Decimal(n)| - 1] == Decimal(n / 10);
    }
  }

  /** `${id}`: a string as it is, an integer in decimal with a leading
      minus sign when negative. */
  function IdText(id: Id): string {
    match id
    case TextId(s) => s
    case NumberId(n) => if n < 0 then "-" + Decimal(-n) else Decimal(n)
  }

  lemma NegativeText(a: int)
    requires a < 0
    ensures IdText(NumberId(a))[0] == '-'
    ensures IdText(NumberId(a))[1..] == Decimal(-a)
  {
    var d := Decimal(-a);
    assert IdText(NumberId(a)) == "-" + d;
    assert ("-" + d)[1..] == d;
  }

  lemma NonNegativeText(a: int)
    requires a >= 0
    ensures IdText(NumberId(a)) == Decimal(a)
    ensures IsAsciiDigit(IdText(NumberId(a))[0])
  {
  }

  lemma DecimalInjective(m: nat, n: nat)
    requires Decimal(m) == Decimal(n)
    ensures m == n
  {
    DecimalRoundTrip(m);
    DecimalRoundTrip(n);
  }

  /** The sign shows in the first character: "-" exactly for negatives. */
  lemma SignVisible(a: int)
    ensures (IdText(NumberId(a))[0] == '-') == (a < 0)
  {
    if a < 0 {
      NegativeText(a);
    } else {
      NonNegativeText(a);
    }
  }

  /** Two numeric ids render alike only when they are equal. */
  lemma NumberTextInjective(a: int, b: int)
    requires IdText(NumberId(a)) == IdText(NumberId(b))
    ensures a == b
  {
    SignVisible(a);
    SignVisible(b);
    if a < 0 {
      NegativeText(a);
      NegativeText(b);
      DecimalInjective(-a, -b);
    } else {
      NonNegativeText(a);
      NonNegativeText(b);
      DecimalInjective(a, b);
    }
  }

  // Fixed endpoints.
  const Login: string := BaseUrl + "/auth/login"
  const ForgotPassword: string := BaseUrl + "/auth/forgot-password"
  const VerifyOtp: string := BaseUrl + "/auth/verify-otp"
  const ChangePassword: string := BaseUrl + "/auth/change-password"
  const UsersGetAll: string := BaseUrl + "/users"
  const UsersCreate: string := BaseUrl + "/users"
  const LeaveTypeCreate: string := BaseUrl + "/leavetype"
  const LeaveTypeGet: string := BaseUrl + "/leavetype"
  const LeaveCreate: string := BaseUrl + "/leaves"
  const LeaveGetLeave: string := BaseUrl + "/leaves"
  const LeaveGetAll: string := BaseUrl + "/leaves/allLeave"
  const PayrollProcess: string := BaseUrl + "/payroll/process"
  const PayrollGetAll: string := BaseUrl + "/payroll/all"
  const PayrollGetMine: string := BaseUrl + "/payroll/my"
  const ProfileMe: string := BaseUrl + "/profile/me"
  const ProfileBasic: string := BaseUrl + "/profile/basic"
  const ProfilePersonal: string := BaseUrl + "/profile/personal"
  const ProfileEducation: string := BaseUrl + "/profile/education"
  const DashboardCards: string := BaseUrl + "/cards/dashboard-cards"

  // Builders taking an id.
  function UserGetById(id: Id): string { BaseUrl + "/users/" + IdText(id) }
  function UserUpdate(id: Id): string { BaseUrl + "/users/" + IdText(id) }
  function UserDelete(id: Id): string { BaseUrl + "/users/" + IdText(id) }
  function LeaveTypeGetById(id: Id): string { BaseUrl + "/leavetype/" + IdText(id) }
  function LeaveTypeUpdate(id: Id): string { BaseUrl + "/leavetype/" + IdText(id) }
  function LeaveTypeDelete(id: Id): string { BaseUrl + "/leavetype/" + IdText(id) }
  function LeaveGetById(id: Id): string { BaseUrl + "/leaves/allLeave/" + IdText(id) }
  function LeaveUpdate(id: Id): string { BaseUrl + "/leaves/" + IdText(id) }
  function PayrollByEmployee(id: Id): string { BaseUrl + "/payroll/all/" + IdText(id) }
  function SalarySlip(id: Id): string { BaseUrl + "/payroll/my/" + IdText(id) }
  function DownloadSalarySlip(id: Id): string { BaseUrl + "/payroll/" + IdText(id) + "/download" }

  /** Every URL the table produces, for a given id, group by group. */
  function AuthEndpoints(): seq<string> {
    [Login, ForgotPassword, VerifyOtp, ChangePassword]
  }

  function UserEndpoints(id: Id): seq<string> {
    [UsersGetAll, UsersCreate, UserGetById(id), UserUpdate(id), UserDelete(id)]
  }

  function LeaveTypeEndpoints(id: Id): seq<string> {
    [LeaveTypeCreate, LeaveTypeGet, LeaveTypeGetById(id), LeaveTypeUpdate(id), LeaveTypeDelete(id)]
  }

  function LeaveEndpoints(id: Id): seq<string> {
    [LeaveCreate, LeaveGetLeave, LeaveGetAll, LeaveGetById(id), LeaveUpdate(id)]
  }

  function PayrollEndpoints(id: Id): seq<string> {
    [PayrollProcess, PayrollGetAll, PayrollByEmployee(id), PayrollGetMine, SalarySlip(id), DownloadSalarySlip(id)]
  }

  function ProfileEndpoints(): seq<string> {
    [ProfileMe, ProfileBasic, ProfilePersonal, ProfileEducation, DashboardCards]
  }

  function AllEndpoints(id: Id): seq<string> {
    AuthEndpoints() + UserEndpoints(id) + LeaveTypeEndpoints(id) + LeaveEndpoints(id)
    + PayrollEndpoints(id) + ProfileEndpoints()
  }

  /** The base URL followed by "/" is a prefix of each URL in `urls`. */
  ghost predicate AllUnderBase(urls: seq<string>) {
    forall i | 0 <= i < |urls| :: BaseUrl + "/" <= urls[i]
  }

  lemma UnderBase(path: string)
    requires |path| > 0 && path[0] == '/'
    ensures BaseUrl + "/" <= BaseUrl + path
  {
    assert (BaseUrl + path)[..|BaseUrl| + 1] == BaseUrl + "/";
  }

  lemma AuthUnderBase()
    ensures AllUnderBase(AuthEndpoints())
  {
    UnderBase("/auth/login");
    UnderBase("/auth/forgot-password");
    UnderBase("/auth/verify-otp");
    UnderBase("/auth/change-password");
  }

  lemma UsersUnderBase(id: Id)
    ensures AllUnderBase(UserEndpoints(id))
  {
    UnderBase("/users");
    UnderBase("/users/" + IdText(id));
    assert UserGetById(id) == BaseUrl + ("/users/" + IdText(id));
  }

  lemma LeaveTypesUnderBase(id: Id)
    ensures AllUnderBase(LeaveTypeEndpoints(id))
  {
    UnderBase("/leavetype");
    UnderBase("/leavetype/" + IdText(id));
    assert LeaveTypeGetById(id) == BaseUrl + ("/leavetype/" + IdText(id));
  }

  lemma LeavesUnderBase(id: Id)
    ensures AllUnderBase(LeaveEndpoints(id))
  {
    UnderBase("/leaves");
    UnderBase("/leaves/allLeave");
    UnderBase("/leaves/allLeave/" + IdText(id));
    assert LeaveGetById(id) == BaseUrl + ("/leaves/allLeave/" + IdText(id));
    UnderBase("/leaves/" + IdText(id));
    assert LeaveUpdate(id) == BaseUrl + ("/leaves/" + IdText(id));
  }

  lemma PayrollUnderBase(id: Id)
    ensures AllUnderBase(PayrollEndpoints(id))
  {
    var t := IdText(id);
    UnderBase("/payroll/process");
    UnderBase("/payroll/all");
    UnderBase("/payroll/all/" + t);
    assert PayrollByEmployee(id) == BaseUrl + ("/payroll/all/" + t);
    UnderBase("/payroll/my");
    UnderBase("/payroll/my/" + t);
    assert SalarySlip(id) == BaseUrl + ("/payroll/my/" + t);
    UnderBase("/payroll/" + t + "/download");
    assert DownloadSalarySlip(id) == BaseUrl + ("/payroll/" + t + "/download");
  }

  lemma ProfileUnderBase()
    ensures AllUnderBase(ProfileEndpoints())
  {
    UnderBase("/profile/me");
    UnderBase("/profile/basic");
    UnderBase("/profile/personal");
    UnderBase("/profile/education");
    UnderBase("/cards/dashboard-cards");
  }

  lemma ConcatUnderBase(a: seq<string>, b: seq<string>)
    requires AllUnderBase(a) && AllUnderBase(b)
    ensures AllUnderBase(a + b)
  {
    forall i | 0 <= i < |a + b|
      ensures BaseUrl + "/" <= (a + b)[i]
    {
      if i >= |a| {
        assert (a + b)[i] == b[i - |a|];
      }
    }
  }

  /** Every endpoint is the base URL followed by a path beginning with "/". */
  lemma AllEndpointsUnderBase(id: Id)
    ensures forall i | 0 <= i < |AllEndpoints(id)| :: BaseUrl + "/" <= AllEndpoints(id)[i]
  {
    AuthUnderBase();
    UsersUnderBase(id);
    LeaveTypesUnderBase(id);
    LeavesUnderBase(id);
    PayrollUnderBase(id);
    ProfileUnderBase();
    ConcatUnderBase(AuthEndpoints(), UserEndpoints(id));
    ConcatUnderBase(AuthEndpoints() + UserEndpoints(id), LeaveTypeEndpoints(id));
    ConcatUnderBase(AuthEndpoints() + UserEndpoints(id) + LeaveTypeEndpoints(id), LeaveEndpoints(id));
    ConcatUnderBase(AuthEndpoints() + UserEndpoints(id) + LeaveTypeEndpoints(id) + LeaveEndpoints(id),
                    PayrollEndpoints(id));
    ConcatUnderBase(AuthEndpoints() + UserEndpoints(id) + LeaveTypeEndpoints(id) + LeaveEndpoints(id)
                    + PayrollEndpoints(id), ProfileEndpoints());
  }

  /** The three user builders agree for every id, and listing and creating
      users share one URL; likewise for leave types. */
  lemma SharedUrls(id: Id)
    ensures UserGetById(id) == UserUpdate(id) == UserDelete(id)
    ensures UsersGetAll == UsersCreate
    ensures LeaveTypeGetById(id) == LeaveTypeUpdate(id) == LeaveTypeDelete(id)
    ensures LeaveTypeCreate == LeaveTypeGet
  {
  }

  /** Looking a leave up and updating it never hit the same URL for one id:
      the lookup goes under "/leaves/allLeave/", the update directly under
      "/leaves/". */
  lemma LeaveLookupIsNotUpdate(id: Id)
    ensures LeaveGetById(id) != LeaveUpdate(id)
    ensures LeaveGetById(id) == LeaveGetAll + "/" + IdText(id)
  {
    assert |LeaveGetById(id)| == |LeaveUpdate(id)| + |"allLeave/"|;
  }

  lemma AppendCancel(p: string, a: string, b: string)
    requires p + a == p + b
    ensures a == b
  {
    assert a == (p + a)[|p|..];
    assert b == (p + b)[|p|..];
  }

  /** The download URL puts the id between "/payroll/" and "/download". */
  lemma DownloadShape(id: Id)
    ensures var u := DownloadSalarySlip(id);
      BaseUrl + "/payroll/" <= u &&
      u[|BaseUrl + "/payroll/"|..|u| - |"/download"|] == IdText(id) &&
      u[|u| - |"/download"|..] == "/download"
  {
    var p := BaseUrl + "/payroll/";
    var u := DownloadSalarySlip(id);
    assert u == p + IdText(id) + "/download";
    assert u[..|p|] == p;
  }

  /** Every builder is injective in the rendered id: different ids give
      different URLs. */
  lemma BuildersInjective(a: Id, b: Id)
    requires IdText(a) != IdText(b)
    ensures UserGetById(a) != UserGetById(b)
    ensures LeaveTypeGetById(a) != LeaveTypeGetById(b)
    ensures LeaveGetById(a) != LeaveGetById(b)
    ensures LeaveUpdate(a) != LeaveUpdate(b)
    ensures PayrollByEmployee(a) != PayrollByEmployee(b)
    ensures SalarySlip(a) != SalarySlip(b)
    ensures DownloadSalarySlip(a) != DownloadSalarySlip(b)
  {
    if UserGetById(a) == UserGetById(b) { AppendCancel(BaseUrl + "/users/", IdText(a), IdText(b)); }
    if LeaveTypeGetById(a) == LeaveTypeGetById(b) { AppendCancel(BaseUrl + "/leavetype/", IdText(a), IdText(b)); }
    if LeaveGetById(a) == LeaveGetById(b) { AppendCancel(BaseUrl + "/leaves/allLeave/", IdText(a), IdText(b)); }
    if LeaveUpdate(a) == LeaveUpdate(b) { AppendCancel(BaseUrl + "/leaves/", IdText(a), IdText(b)); }
    if PayrollByEmployee(a) == PayrollByEmployee(b) { AppendCancel(BaseUrl + "/payroll/all/", IdText(a), IdText(b)); }
    if SalarySlip(a) == SalarySlip(b) { AppendCancel(BaseUrl + "/payroll/my/", IdText(a), IdText(b)); }
    if DownloadSalarySlip(a) == DownloadSalarySlip(b) {
      DownloadShape(a);
      DownloadShape(b);
    }
  }

  /** The numeric id 7 and the string id "7" reach the same URL. */
  lemma TextAndNumberMeet()
    ensures UserGetById(NumberId(7)) == UserGetById(TextId("7"))
  {
  }

  /** The Authorization header: `Bearer ${token}`, where a missing token
      renders as "null". */
  function AuthHeader(token: Option<string>): (h: string)
    ensures "Bearer " <= h
    ensures token.Some? ==> h[|"Bearer "|..] == token.value
    ensures token.None? ==> h == "Bearer null"
  {
    "Bearer " + match token { case Some(t) => t case None => "null" }
  }
}
