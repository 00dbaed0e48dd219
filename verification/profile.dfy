/** The profile page (src/views/admin/profile/index.tsx): three forms held
    in component state. Each input writes its own field, selected by the
    input's `name`; none of the three buttons has a handler, so nothing is
    ever saved. */
module Profile {
  datatype ProfileInfo = ProfileInfo(name: string, email: string, job: string)
  datatype Passwords = Passwords(currentPassword: string, newPassword: string,
                                 confirmPassword: string)
  datatype Notifications = Notifications(emailNotifications: bool, smsNotifications: bool)

  /** The whole page state. */
  datatype ProfilePage = ProfilePage(info: ProfileInfo, passwords: Passwords,
                                     notifications: Notifications)

  /** The `name` attributes of the inputs of each form. */
  datatype InfoField = Name | Email | Job
  datatype PasswordField = CurrentPassword | NewPassword | ConfirmPassword
  datatype NotificationField = EmailNotifications | SmsNotifications

  /** The page as first rendered. */
  function InitialPage(): (p: ProfilePage)
    ensures p.info == ProfileInfo("Adela Parkson", "adela.parkson@example.com",
                                  "Product Designer")
    ensures p.passwords == Passwords("", "", "")
    ensures p.notifications.emailNotifications && !p.notifications.smsNotifications
  {
    ProfilePage(ProfileInfo("Adela Parkson", "adela.parkson@example.com", "Product Designer"),
                Passwords("", "", ""),
                Notifications(true, false))
  }

  function InfoGet(i: ProfileInfo, f: InfoField): string {
    match f
    case Name => i.name
    case Email => i.email
    case Job => i.job
  }

  function PasswordGet(p: Passwords, f: PasswordField): string {
    match f
    case CurrentPassword => p.currentPassword
    case NewPassword => p.newPassword
    case ConfirmPassword => p.confirmPassword
  }

  function NotificationGet(n: Notifications, f: NotificationField): bool {
    match f
    case EmailNotifications => n.emailNotifications
    case SmsNotifications => n.smsNotifications
  }

  /** `handleProfileChange`: the named field takes the typed value and the
      other two keep theirs; the other forms are untouched. */
  function ProfileChange(p: ProfilePage, field: InfoField, value: string): (r: ProfilePage)
    ensures forall f :: InfoGet(r.info, f) == if f == field then value else InfoGet(p.info, f)
    ensures r.passwords == p.passwords && r.notifications == p.notifications
  {
    match field
    case Name => p.(info := p.info.(name := value))
    case Email => p.(info := p.info.(email := value))
    case Job => p.(info := p.info.(job := value))
  }

  /** `handlePasswordChange`: the same, for the password form. The three
      values are never compared with each other. */
  function PasswordChange(p: ProfilePage, field: PasswordField, value: string): (r: ProfilePage)
    ensures forall f :: PasswordGet(r.passwords, f)
                     == if f == field then value else PasswordGet(p.passwords, f)
    ensures r.info == p.info && r.notifications == p.notifications
  {
    match field
    case CurrentPassword => p.(passwords := p.passwords.(currentPassword := value))
    case NewPassword => p.(passwords := p.passwords.(newPassword := value))
    case ConfirmPassword => p.(passwords := p.passwords.(confirmPassword := value))
  }

  /** `handleNotificationChange`: the named switch takes its checked state. */
  function NotificationChange(p: ProfilePage, field: NotificationField, checked: bool)
    : (r: ProfilePage)
    ensures forall f :: NotificationGet(r.notifications, f)
                     == if f == field then checked else NotificationGet(p.notifications, f)
    ensures r.info == p.info && r.passwords == p.passwords
  {
    match field
    case EmailNotifications => p.(notifications := p.notifications.(emailNotifications := checked))
    case SmsNotifications => p.(notifications := p.notifications.(smsNotifications := checked))
  }

  /** The fields of a record are exactly what the accessor reads: two
      records that agree on every field are equal. */
  lemma InfoExtensional(a: ProfileInfo, b: ProfileInfo)
    requires forall f :: InfoGet(a, f) == InfoGet(b, f)
    ensures a == b
  {
    assert InfoGet(a, Name) == InfoGet(b, Name);
    assert InfoGet(a, Email) == InfoGet(b, Email);
    assert InfoGet(a, Job) == InfoGet(b, Job);
  }

  lemma PasswordsExtensional(a: Passwords, b: Passwords)
    requires forall f :: PasswordGet(a, f) == PasswordGet(b, f)
    ensures a == b
  {
    assert PasswordGet(a, CurrentPassword) == PasswordGet(b, CurrentPassword);
    assert PasswordGet(a, NewPassword) == PasswordGet(b, NewPassword);
    assert PasswordGet(a, ConfirmPassword) == PasswordGet(b, ConfirmPassword);
  }

  /** Edits to different profile fields commute; of two edits to the same
      field the last one wins; writing a field's current value back
      changes nothing. */
  lemma {:induction false} ProfileEditsAlgebra(p: ProfilePage, f: InfoField, g: InfoField,
                                               v: string, w: string)
    ensures f != g ==>
              ProfileChange(ProfileChange(p, f, v), g, w)
              == ProfileChange(ProfileChange(p, g, w), f, v)
    ensures ProfileChange(ProfileChange(p, f, v), f, w) == ProfileChange(p, f, w)
    ensures ProfileChange(p, f, InfoGet(p.info, f)) == p
  {
    if f != g {
      InfoExtensional(ProfileChange(ProfileChange(p, f, v), g, w).info,
                      ProfileChange(ProfileChange(p, g, w), f, v).info);
    }
    InfoExtensional(ProfileChange(ProfileChange(p, f, v), f, w).info,
                    ProfileChange(p, f, w).info);
    InfoExtensional(ProfileChange(p, f, InfoGet(p.info, f)).info, p.info);
  }

  /** The same algebra for the password form. */
  lemma {:induction false} PasswordEditsAlgebra(p: ProfilePage, f: PasswordField,
                                                g: PasswordField, v: string, w: string)
    ensures f != g ==>
              PasswordChange(PasswordChange(p, f, v), g, w)
              == PasswordChange(PasswordChange(p, g, w), f, v)
    ensures PasswordChange(PasswordChange(p, f, v), f, w) == PasswordChange(p, f, w)
    ensures PasswordChange(p, f, PasswordGet(p.passwords, f)) == p
  {
    if f != g {
      PasswordsExtensional(PasswordChange(PasswordChange(p, f, v), g, w).passwords,
                           PasswordChange(PasswordChange(p, g, w), f, v).passwords);
    }
    PasswordsExtensional(PasswordChange(PasswordChange(p, f, v), f, w).passwords,
                         PasswordChange(p, f, w).passwords);
    PasswordsExtensional(PasswordChange(p, f, PasswordGet(p.passwords, f)).passwords,
                         p.passwords);
  }

  /** Flipping a switch twice puts the page back as it was, and the two
      switches are independent. */
  lemma NotificationToggles(p: ProfilePage, f: NotificationField, g: NotificationField,
                            b: bool, c: bool)
    ensures NotificationChange(NotificationChange(p, f, !NotificationGet(p.notifications, f)),
                               f, NotificationGet(p.notifications, f)) == p
    ensures f != g ==>
              NotificationChange(NotificationChange(p, f, b), g, c)
              == NotificationChange(NotificationChange(p, g, c), f, b)
  {
  }
}
