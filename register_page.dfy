/**
 * The sign-up page: the form state, the photo upload choice, the file checks
 * and the submit ladder that decides whether a registration request is sent
 * and which auth actions are dispatched.
 */
module RegisterPage {
  import opened JsCore
  import opened ShopModel
  import AuthReducer
  import UserController

  datatype UploadMethod = UrlMethod | FileMethod

  /** What the page reads of a chosen file. */
  datatype FileInfo = FileInfo(mimeType: string, size: nat)

  const ValidTypes: seq<string> := ["image/jpeg", "image/jpg", "image/png", "image/gif", "image/webp"]
  const MaxSize: nat := 5 * 1024 * 1024
  const MinPassword: nat := 8

  datatype FileError = InvalidFileType | FileTooLarge

  /** The checks of `handleFileSelect`: the type first, then the size. */
  function FileCheck(file: FileInfo): (r: Option<FileError>)
    ensures r.None? <==> file.mimeType in ValidTypes && file.size <= MaxSize
    ensures r == Some(InvalidFileType) <==> file.mimeType !in ValidTypes
  {
    if file.mimeType !in ValidTypes then Some(InvalidFileType)
    else if file.size > MaxSize then Some(FileTooLarge)
    else None
  }

  /** The four refusals of `HandleSubmit`, in the order they are checked. */
  datatype SubmitError = MissingFields | MissingPhotoUrl | MissingPhotoFile | ShortPassword

  /** The validation ladder of `HandleSubmit`; `None` lets the request go out. */
  function SubmitCheck(name: string, email: string, password: string, photo: string, upload: UploadMethod, hasFile: bool): (r: Option<SubmitError>)
    ensures r.None? <==>
      && name != "" && email != "" && password != ""
      && (upload == UrlMethod ==> photo != "")
      && (upload == FileMethod ==> hasFile)
      && |password| >= MinPassword
    ensures r == Some(MissingFields) <==> name == "" || email == "" || password == ""
    ensures r == Some(ShortPassword) ==>
      name != "" && email != "" && (upload == UrlMethod ==> photo != "") && (upload == FileMethod ==> hasFile)
  {
    if name == "" || email == "" || password == "" then Some(MissingFields)
    else if upload == UrlMethod && photo == "" then Some(MissingPhotoUrl)
    else if upload == FileMethod && !hasFile then Some(MissingPhotoFile)
    else if |password| < MinPassword then Some(ShortPassword)
    else None
  }

  /** The JSON body of the registration request. */
  datatype SignupRequest = SignupRequest(name: string, email: string, password: string, photo: string)

  /** What one submission does: the refusal, the request sent, the auth actions dispatched, and whether the form is cleared. */
  datatype Submission = Submission(refused: Option<SubmitError>, sent: Option<SignupRequest>,
                                   dispatched: seq<AuthReducer.Action>, cleared: bool)

  /**
   * The outcome of `HandleSubmit` on a form. `fileData` is what reading the
   * selected file gives (`None` when the read fails) and `response` is the
   * token and user of a successful registration reply (`None` for a refusal,
   * a timeout or a network error). A refused form sends and dispatches
   * nothing. Otherwise SIGNUP_REQUEST goes first; the request carries the
   * trimmed name and e-mail, the password as typed and the URL or the file's
   * data; success or failure follows, and only success clears the form.
   */
  function Submit(input: FormInput, upload: UploadMethod, hasFile: bool,
                  fileData: Option<string>, response: Option<(string, User)>): (r: Submission)
    ensures var FormInput(name, email, password, photo) := input;
      r.refused == SubmitCheck(name, email, password, photo, upload, hasFile)
    ensures r.refused.Some? ==> r.sent.None? && r.dispatched == [] && !r.cleared
    ensures r.refused.None? && upload == FileMethod ==>
      r.sent == if fileData.None? then None else Some(SignupRequest(Trim(input.name), Trim(input.email), input.password, fileData.value))
    ensures r.refused.None? && upload == UrlMethod ==>
      r.sent == Some(SignupRequest(Trim(input.name), Trim(input.email), input.password, input.photo))
    ensures r.cleared <==> r.refused.None? && r.sent.Some? && response.Some?
    ensures r.refused.None? && r.cleared ==>
      r.dispatched == [AuthReducer.SignupRequest, AuthReducer.SignupSuccess(AuthReducer.PagePayload(response.value.0, response.value.1))]
    ensures r.refused.None? && !r.cleared ==> r.dispatched == [AuthReducer.SignupRequest, AuthReducer.SignupFailure]
  {
    var FormInput(name, email, password, photo) := input;
    var refused := SubmitCheck(name, email, password, photo, upload, hasFile);
    if refused.Some? then Submission(refused, None, [], false)
    else
      var sent :=
        if upload == FileMethod && fileData.None? then None
        else Some(SignupRequest(Trim(name), Trim(email), password, if upload == FileMethod then fileData.value else photo));
      if sent.Some? && response.Some? then
        Submission(None, sent, [AuthReducer.SignupRequest, AuthReducer.SignupSuccess(AuthReducer.PagePayload(response.value.0, response.value.1))], true)
      else
        Submission(None, sent, [AuthReducer.SignupRequest, AuthReducer.SignupFailure], false)
  }

  /** The typed fields of the form, `IsInput`. */
  datatype FormInput = FormInput(name: string, email: string, password: string, photo: string)

  /** `InitialState`: every field empty. */
  const InitialState: FormInput := FormInput("", "", "", "")

  /** The fields of the form. */
  datatype FormField = NameField | EmailField | PasswordField | PhotoField

  class RegisterForm {
    var input: FormInput
    var selectedFile: Option<FileInfo>
    var previewUrl: string
    var uploadMethod: UploadMethod
    var isLoading: bool

    /** The page as first rendered: empty fields, the URL method, no file. */
    constructor()
      ensures input == InitialState
      ensures selectedFile.None? && previewUrl == "" && uploadMethod == UrlMethod && !isLoading
    {
      input := InitialState;
      selectedFile := None;
      previewUrl := "";
      uploadMethod := UrlMethod;
      isLoading := false;
    }

    /** `HandleChange`: one field takes the typed value, the others keep theirs. */
    method HandleChange(field: FormField, value: string)
      modifies this`input
      ensures input == match field
        case NameField => old(input).(name := value)
        case EmailField => old(input).(email := value)
        case PasswordField => old(input).(password := value)
        case PhotoField => old(input).(photo := value)
    {
      match field
      case NameField => input := input.(name := value);
      case EmailField => input := input.(email := value);
      case PasswordField => input := input.(password := value);
      case PhotoField => input := input.(photo := value);
    }

    /**
     * `handleFileSelect`: no file does nothing; a refused file is reported and
     * leaves the selection as it was; an accepted one becomes the selection.
     */
    method HandleFileSelect(file: Option<FileInfo>) returns (error: Option<FileError>)
      modifies this`selectedFile
      ensures file.None? ==> error.None? && selectedFile == old(selectedFile)
      ensures file.Some? ==> error == FileCheck(file.value)
      ensures file.Some? && error.None? ==> selectedFile == file
      ensures error.Some? ==> selectedFile == old(selectedFile)
    {
      if file.None? {
        return None;
      }
      error := FileCheck(file.value);
      if error.None? {
        selectedFile := file;
      }
    }

    /** `handleRemoveFile`: no file and no preview. */
    method HandleRemoveFile()
      modifies this`selectedFile, this`previewUrl
      ensures selectedFile.None? && previewUrl == ""
    {
      selectedFile := None;
      previewUrl := "";
    }

    /** The "Enter URL" button: the URL method, and the chosen file is dropped. */
    method ChooseUrl()
      modifies this`uploadMethod, this`selectedFile, this`previewUrl
      ensures uploadMethod == UrlMethod && selectedFile.None? && previewUrl == ""
    {
      uploadMethod := UrlMethod;
      HandleRemoveFile();
    }

    /** The "Upload File" button: the file method, and the typed photo URL is cleared. */
    method ChooseFile()
      modifies this`uploadMethod, this`input
      ensures uploadMethod == FileMethod && input == old(input).(photo := "")
    {
      uploadMethod := FileMethod;
      input := input.(photo := "");
    }

    /**
     * `HandleSubmit`: decides with `Submit` on the form as it stands, then
     * resets the fields, the file and the preview when the registration
     * succeeded; loading is off at the end of every submission that got past
     * the checks.
     */
    method HandleSubmit(fileData: Option<string>, response: Option<(string, User)>)
      returns (refused: Option<SubmitError>, sent: Option<SignupRequest>, dispatched: seq<AuthReducer.Action>)
      modifies this`input, this`selectedFile, this`previewUrl, this`isLoading
      ensures var r := Submit(old(input), uploadMethod, old(selectedFile).Some?, fileData, response);
        && refused == r.refused && sent == r.sent && dispatched == r.dispatched
        && input == (if r.cleared then InitialState else old(input))
        && selectedFile == (if r.cleared then None else old(selectedFile))
        && previewUrl == (if r.cleared then "" else old(previewUrl))
      ensures isLoading == (refused.Some? && old(isLoading))
    {
      var r := Submit(input, uploadMethod, selectedFile.Some?, fileData, response);
      refused, sent, dispatched := r.refused, r.sent, r.dispatched;
      if refused.Some? {
        return;
      }
      isLoading := true;
      if r.cleared {
        input := InitialState;
        selectedFile := None;
        previewUrl := "";
      }
      isLoading := false;
    }
  }

  /** Exactly five mebibytes is accepted; one byte more is not. */
  lemma SizeBoundary(mimeType: string)
    requires mimeType in ValidTypes
    ensures FileCheck(FileInfo(mimeType, 5242880)).None?
    ensures FileCheck(FileInfo(mimeType, 5242881)) == Some(FileTooLarge)
  {
  }

  /** A missing field is reported first, whatever else is wrong with the form. */
  lemma MissingFieldsFirst(email: string, password: string, photo: string, upload: UploadMethod, hasFile: bool)
    ensures SubmitCheck("", email, password, photo, upload, hasFile) == Some(MissingFields)
  {
  }

  /** With the URL method, a form with every field filled and a long enough password goes out. */
  lemma UrlFormAccepted(name: string, email: string, password: string, photo: string)
    requires name != "" && email != "" && |password| >= MinPassword && photo != ""
    ensures SubmitCheck(name, email, password, photo, UrlMethod, false).None?
  {
  }

  /**
   * The client checks the fields as typed and the server checks them trimmed:
   * a name made only of blanks passes the page, and the request it sends is
   * refused by the registration handler with 400.
   */
  lemma BlankNamePassesPageOnly(users: UserController.Users, name: string, email: string, password: string, photo: string,
                                admin: string, newId: string, hash: string -> string)
    requires name != "" && Trim(name) == ""
    requires email != "" && |password| >= MinPassword && photo != ""
    ensures SubmitCheck(name, email, password, photo, UrlMethod, false).None?
    ensures var body := UserController.SignupBody(Str(Trim(name)), Str(Trim(email)), Str(password), Str(photo));
      UserController.Register(users, body, Some(admin), newId, hash).0.status == 400
  {
    UrlFormAccepted(name, email, password, photo);
    assert Trim(Trim(name)) == "";
    UserController.BlankNameRefused(users, UserController.SignupBody(Str(Trim(name)), Str(Trim(email)), Str(password), Str(photo)),
                                    Some(admin), newId, hash);
  }

  /**
   * A successful sign-up, folded through the auth reducer as written, leaves
   * the store authenticated and holding the token but without the user: the
   * page puts the user under `user` and the reducer reads `User`.
   */
  lemma SignupSuccessLosesUser(state: AuthReducer.AuthState, token: string, u: User)
    ensures var s := AuthReducer.Reduce(AuthReducer.Reduce(state, AuthReducer.SignupRequest),
                                        AuthReducer.SignupSuccess(AuthReducer.PagePayload(token, u)));
      s.isAuth && !s.isLoading && s.accessToken == Some(token) && s.user.None?
  {
    AuthReducer.LoginLosesUser(AuthReducer.Reduce(state, AuthReducer.SignupRequest), token, u);
    AuthReducer.SignupIsLogin(AuthReducer.Reduce(state, AuthReducer.SignupRequest), AuthReducer.PagePayload(token, u));
  }
}
