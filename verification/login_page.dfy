/**
  The sign-in page (`pages/Login.tsx`): the two form records, the field
  routing between them, and the registration validation with its defaults
  for the optional fields.
 */
module LoginPage {
  import Auth

  datatype Tab = LoginTab | RegisterTab

  datatype LoginData = LoginData(email: string, password: string)

  datatype RegisterForm = RegisterForm(
    name: string,
    email: string,
    password: string,
    confirmPassword: string,
    phone: string,
    aadharNumber: string,
    state: string,
    district: string,
    role: string)

  /** The fields `handleInputChange` can be asked to set. */
  datatype Field = Name | Email | Password | ConfirmPassword | Phone | AadharNumber | StateField | District | Role

  const MinPasswordLength := 4
  const DefaultPhone := "+91 0000000000"
  const DefaultAadhar := "0000-0000-0000"
  const DefaultState := "Delhi"
  const DefaultDistrict := "New Delhi"

  /** The page's form state. */
  datatype Page = Page(activeTab: Tab, loginData: LoginData, registerData: RegisterForm)

  /** A login record with one field set; fields the login form does not have
      are ignored here (the program would add a stray key that nothing reads). */
  function SetLoginField(d: LoginData, f: Field, v: string): LoginData
  {
    match f
    case Email => d.(email := v)
    case Password => d.(password := v)
    case _ => d
  }

  function SetRegisterField(d: RegisterForm, f: Field, v: string): RegisterForm
  {
    match f
    case Name => d.(name := v)
    case Email => d.(email := v)
    case Password => d.(password := v)
    case ConfirmPassword => d.(confirmPassword := v)
    case Phone => d.(phone := v)
    case AadharNumber => d.(aadharNumber := v)
    case StateField => d.(state := v)
    case District => d.(district := v)
    case Role => d.(role := v)
  }

  /** The value a field has in the register record. */
  function RegisterValue(d: RegisterForm, f: Field): string
  {
    match f
    case Name => d.name
    case Email => d.email
    case Password => d.password
    case ConfirmPassword => d.confirmPassword
    case Phone => d.phone
    case AadharNumber => d.aadharNumber
    case StateField => d.state
    case District => d.district
    case Role => d.role
  }

  /** `handleInputChange(field, value)`: on the login tab only the login
      record changes, otherwise only the register record. */
  function InputChange(p: Page, f: Field, v: string): (r: Page)
    ensures r.activeTab == p.activeTab
    ensures p.activeTab == LoginTab ==> r.registerData == p.registerData
    ensures p.activeTab != LoginTab ==> r.loginData == p.loginData
  {
    if p.activeTab == LoginTab then p.(loginData := SetLoginField(p.loginData, f, v))
    else p.(registerData := SetRegisterField(p.registerData, f, v))
  }

  /** On the register tab exactly the chosen field takes the new value. */
  lemma RegisterChangeSetsOneField(p: Page, f: Field, v: string, g: Field)
    requires p.activeTab == RegisterTab
    ensures RegisterValue(InputChange(p, f, v).registerData, g)
      == if g == f then v else RegisterValue(p.registerData, g)
  {
  }

  /** The role select on the register tab: the chosen role is what a valid
      submission then registers. */
  lemma RoleSelectReachesRegistration(p: Page, v: string)
    requires p.activeTab == RegisterTab
    requires HandleRegister(p.registerData).Submit?
    ensures HandleRegister(InputChange(p, Role, v).registerData).Submit?
    ensures HandleRegister(InputChange(p, Role, v).registerData).data.role == v
  {
  }

  /** On the login tab the email and password fields land in the login record. */
  lemma LoginChangeSetsOneField(p: Page, f: Field, v: string)
    requires p.activeTab == LoginTab
    ensures f == Email ==> InputChange(p, f, v).loginData == p.loginData.(email := v)
    ensures f == Password ==> InputChange(p, f, v).loginData == p.loginData.(password := v)
    ensures f != Email && f != Password ==> InputChange(p, f, v) == p
  {
  }

  /** `x || default` for a string: the empty string is replaced. */
  function OrDefault(x: string, default: string): (r: string)
    ensures x != "" ==> r == x
    ensures x == "" ==> r == default
  {
    if x != "" then x else default
  }

  /** The outcome of submitting the register form. */
  datatype Submission =
    | PasswordsDoNotMatch
    | PasswordTooShort
    | Submit(data: Auth.RegisterData)

  /** `handleRegister`: the confirmation is checked first, then the length;
      only a form passing both is handed to `register`, with the defaults
      filled in for the blank optional fields. */
  function HandleRegister(d: RegisterForm): (r: Submission)
    ensures r == PasswordsDoNotMatch <==> d.password != d.confirmPassword
    ensures r == PasswordTooShort <==> d.password == d.confirmPassword && |d.password| < MinPasswordLength
    ensures r.Submit? <==> d.password == d.confirmPassword && |d.password| >= MinPasswordLength
  {
    if d.password != d.confirmPassword then PasswordsDoNotMatch
    else if |d.password| < MinPasswordLength then PasswordTooShort
    else Submit(Auth.RegisterData(
      d.name, d.email, d.password,
      OrDefault(d.phone, DefaultPhone),
      OrDefault(d.aadharNumber, DefaultAadhar),
      OrDefault(d.state, DefaultState),
      OrDefault(d.district, DefaultDistrict),
      d.role))
  }

  /** A submitted registration carries the typed name, email, password and
      role unchanged, and every optional field is either what was typed or,
      when that was blank, its fixed default. */
  lemma SubmittedData(d: RegisterForm)
    requires HandleRegister(d).Submit?
    ensures var s := HandleRegister(d).data;
      s.name == d.name && s.email == d.email && s.password == d.password && s.role == d.role
      && s.phone != "" && s.aadharNumber != "" && s.state != "" && s.district != ""
      && (d.phone != "" ==> s.phone == d.phone) && (d.phone == "" ==> s.phone == DefaultPhone)
      && (d.aadharNumber != "" ==> s.aadharNumber == d.aadharNumber)
      && (d.aadharNumber == "" ==> s.aadharNumber == DefaultAadhar)
      && (d.state != "" ==> s.state == d.state) && (d.state == "" ==> s.state == DefaultState)
      && (d.district != "" ==> s.district == d.district)
      && (d.district == "" ==> s.district == DefaultDistrict)
  {
  }

  /** A mismatched pair is reported as a mismatch even when it is also too
      short, and either failure keeps `register` from being called. */
  lemma MismatchReportedFirst(d: RegisterForm)
    requires d.password != d.confirmPassword && |d.password| < MinPasswordLength
    ensures HandleRegister(d) == PasswordsDoNotMatch
  {
  }

  /** The registered user: submitting a valid form signs in a user whose
      profile has no blank optional field. */
  lemma RegisteredUserHasProfile(s: Auth.AuthState, d: RegisterForm, id: string)
    requires HandleRegister(d).Submit?
    ensures var u := Auth.Register(s, HandleRegister(d).data, id).0.user;
      u.Some? && u.value.email == d.email && u.value.role == d.role
      && u.value.state.Some? && u.value.state.value != ""
      && u.value.district.Some? && u.value.district.value != ""
  {
  }
}
