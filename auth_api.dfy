/**
 * The decision logic of the authentication API client: its own copy of the
 * response handling, the token check of `login`, and the default message of
 * `signup`.
 */
module AuthApi {
  import opened Wrappers
  import opened Js
  import opened Text
  import TasksApi

  /** The error `login` raises when an ok response carries no token. */
  const NoTokenMessage := "Không tìm thấy token trong phản hồi API"
  /** The message `signup` returns when the server sends none. */
  const SignedUpMessage := "Tạo tài khoản thành công"

  /** The user part of a login result, with the values exactly as the server sent them. */
  datatype AuthUser = AuthUser(email: JValue, displayName: JValue)

  /** A login result: the token as the server sent it, and the user. */
  datatype AuthResponse = AuthResponse(token: JValue, user: AuthUser)

  /** `handleResponse(res)` as written again in the authentication client. */
  function HandleResponse(res: Response): (r: Result<JValue, Exception>)
    ensures r.Success? <==> res.ok
    ensures r.Success? ==> r.value == Data(res)
  {
    var data := Data(res);
    if !res.ok then
      var message := Or(OptGet(data, "message"), Or(OptGet(data, "error"), JStr("Request failed with status " + NatToString(res.status))));
      Failure(Raised(ToStr(message)))
    else
      Success(data)
  }

  /** The two copies choose the same error message in the same order for every response. */
  lemma SameFallbackAsTasks(res: Response)
    ensures HandleResponse(res) == TasksApi.HandleResponse(res)
  {
  }

  /**
   * `login`: after `handleResponse`, a falsy `data.token` fails with the
   * no-token message; otherwise the token is returned unchanged with a user
   * made of `data.email` and `data.displayName`.
   */
  function Login(res: Response): (r: Result<AuthResponse, Exception>)
    ensures !res.ok ==> r == Failure(HandleResponse(res).error)
    ensures res.ok && (Data(res) == JNull || Data(res) == JUndefined) ==> r == Failure(TypeFault)
    ensures res.ok && Data(res) != JNull && Data(res) != JUndefined ==>
      (r == Failure(Raised(NoTokenMessage)) <==> !Truthy(OptGet(Data(res), "token")))
    ensures r.Success? <==> res.ok && Truthy(OptGet(Data(res), "token"))
    ensures r.Success? ==>
      r.value.token == OptGet(Data(res), "token") &&
      r.value.user == AuthUser(OptGet(Data(res), "email"), OptGet(Data(res), "displayName"))
  {
    var data :- HandleResponse(res);
    var token :- Get(data, "token");
    if !Truthy(token) then
      Failure(Raised(NoTokenMessage))
    else
      Success(AuthResponse(token, AuthUser(OptGet(data, "email"), OptGet(data, "displayName"))))
  }

  /** `signup`: the server's message, or "Tạo tài khoản thành công" when it sends none. */
  function Signup(res: Response): (r: Result<JValue, Exception>)
    ensures !res.ok ==> r == Failure(HandleResponse(res).error)
    ensures res.ok && (Data(res) == JNull || Data(res) == JUndefined) ==> r == Failure(TypeFault)
    ensures res.ok && Data(res) != JNull && Data(res) != JUndefined ==>
      r == Success(if Truthy(OptGet(Data(res), "message")) then OptGet(Data(res), "message") else JStr(SignedUpMessage))
  {
    var data :- HandleResponse(res);
    var message :- Get(data, "message");
    Success(Or(message, JStr(SignedUpMessage)))
  }
}
