# personal_setup: command execution and downloads, modelled in Dafny

The setup tool runs external commands and downloads files on Windows. This project models
and proves its two core components.

**The command executor** (`command_executor.cpp`):

- `quote_argument` and `build_command_line_string` turn an argument list into one Windows
  command line. They quote each argument by the rules of the Microsoft C runtime (CRT).
  `ArgumentEncoder` models them as imperative methods appending to a stream, proved
  against the recursive specification `Quoted` / `CommandLineOf`.
- `CrtParsing` is an independent model of the CRT argument parser. The round trip
  `Decode(CommandLineOf(args)) == args` is proved to hold exactly when no argument holds
  a NUL.
- `execute_command_line` and `execute_command` are modelled in `CommandExecutor.Launcher`.
  This class holds the `processOpen` / `threadOpen` handle state. `CreateProcessW`,
  `WaitForSingleObject` and `GetExitCodeProcess` are stubs that may return any reply;
  `CloseHandle` always releases its handle. Each call is recorded in a ghost history. The
  proofs show that every return path after a successful `CreateProcessW` closes both
  handles.
- `get_result_message`.

**The downloader** (`downloader.cpp`):

- `sanitize_path`, a loop that replaces illegal characters in place.
- The constructor's normalisation of `dl_params`.
- `get_output_path`.
- The result logic of `download`, with the libcurl and file outcomes as inputs. It is proved
  that the output path is never empty, so `INVALID_OUTPUT_PATH` is never returned.
- `get_result_message`.

Some behaviours of the source are modelled as written, and lemmas make them visible:

- **A NUL inside an argument cuts the command line short.** `utf8_to_wstring` and
  `quote_argument` keep an embedded NUL, but `CreateProcessW` and the child's runtime read
  the command line only up to its first NUL. The round trip therefore holds exactly for
  NUL-free arguments. `CrtParsing.NulCutsCommandLine` shows `["a\0b", "c"]` read back as
  `["a"]`.
- **The output directory is sanitised as a whole.** Its backslashes and the drive colon
  become `_`. The fallback `C:\Users\Public\Downloads\` becomes the relative name
  `C__Users_Public_Downloads_`. A sanitised directory never ends in `\`, so
  `get_output_path` always inserts one `\` before the file name.
- **A file name taken from the URL is not sanitised.** `https://h/get?id=1` gives the name
  `get?id=1`, which Windows refuses, so `fopen_s` fails.
- **A failed download can leave its file behind.** The result of `std::remove` is ignored.
- **The curl easy handle is cleaned up only after a successful download.** Every failure
  after `curl_easy_init` leaks it.

Two facts about the code's types:

- `exec_result` carries no error code or exit code. The code returns bare enumerators, so
  `ExecResult` has no fields.
- `build_command_line_string` signals a failed conversion by an exception. Here it returns
  `None`.

Files:

- `optional.dfy`: `Option`.
- `argument_encoder.dfy`: the encoder.
- `crt_parsing.dfy`: the CRT decoder and the round trip.
- `command_executor.dfy`: the launcher.
- `downloader.dfy`: the downloader.

## Model

| member | source | states |
|---|---|---|
| ArgumentEncoder.QuoteArgument | command_executor.cpp:42-85 | appends to the stream exactly the quoted form of the argument: the stream's old contents followed by `Quoted(argument)` |
| ArgumentEncoder.QuotingTrigger | command_executor.cpp:45-84 | an argument is written unchanged exactly when it is non-empty and holds no space, tab or quote; otherwise it is wrapped in quotes; the empty argument becomes `""` |
| ArgumentEncoder.QuotedHasNoOuterBlank | command_executor.cpp:45-51 | an encoded argument is never empty and never begins or ends with a blank |
| ArgumentEncoder.EscapeSkipsRun | command_executor.cpp:56-62 | a run of backslashes is only counted; nothing is written for it until the next character is known |
| ArgumentEncoder.EscapeRunBeforeQuote | command_executor.cpp:71-76 | n backslashes followed by a quote are written as 2n+1 backslashes and the quote |
| ArgumentEncoder.EscapeRunAtEnd | command_executor.cpp:64-68 | n backslashes that end the argument are written as 2n backslashes, before the closing quote |
| ArgumentEncoder.EscapeRunBeforeOther | command_executor.cpp:77-82 | n backslashes followed by any other character are written as n backslashes and that character |
| ArgumentEncoder.EscapeKeepsPlain | command_executor.cpp:77-82 | every character other than backslash and quote is kept, in order |
| ArgumentEncoder.EscapeNotShorter | command_executor.cpp:54-83 | the escaped body is at least as long as the argument plus the backslashes still owed |
| ArgumentEncoder.Utf8ToWide | command_executor.cpp:21-39 | the empty string converts to the empty wide string without calling the converter |
| ArgumentEncoder.WideArgs | command_executor.cpp:98-119 | the list converts exactly when every argument converts; the converted list has the same length and holds each argument's conversion |
| ArgumentEncoder.CommandLineShape | command_executor.cpp:90-104 | the command line is empty exactly for an empty list; otherwise it neither begins nor ends with a separator |
| ArgumentEncoder.BuildCommandLineString | command_executor.cpp:88-122 | returns a line exactly when every argument converts, and the line is the converted arguments' encodings joined by single spaces |
| CrtParsing.RunVerbatim | command_executor.cpp:47-51 | an unquoted argument is read back by the CRT character for character |
| CrtParsing.RunPiece | command_executor.cpp:71-82 | inside quotes, an escaped quote or other character is read back as the owed backslashes and the character |
| CrtParsing.RunEscaped | command_executor.cpp:53-84 | a quoted body and its closing quote are read back as the original body, and the parser ends outside quotes |
| CrtParsing.ReadOneArgument | command_executor.cpp:42-85 | any encoded argument is read back as exactly that argument, ending the argument |
| CrtParsing.ReadCommandLine | command_executor.cpp:98-121 | reading a whole command line ends just after its last argument, with the earlier ones collected in order |
| CrtParsing.RoundTrip | command_executor.cpp:88-137 | the CRT reads back from the encoded command line exactly the encoded argument list, in order, if and only if no argument holds a NUL |
| CrtParsing.UntilNul | command_executor.cpp:136-137 | what a reader of the null-terminated buffer sees: the longest NUL-free prefix, ending just before the first NUL |
| CrtParsing.CommandLineNulFree | command_executor.cpp:42-85 | encoding adds only quotes, backslashes and spaces, so NUL-free arguments give a NUL-free command line |
| CrtParsing.DecodeNulFree | command_executor.cpp:136-137 | no argument read by the child holds a NUL |
| CrtParsing.ReadBackNulFree | command_executor.cpp:88-121 | NUL-free arguments are read back exactly, in order |
| CrtParsing.NulBreaksReadBack | command_executor.cpp:42-85 | an argument holding a NUL puts that NUL on the encoded command line, and the list is never read back as it was |
| CrtParsing.NulCutsCommandLine | command_executor.cpp:136-137 | the child of `["a\0b", "c"]` reads only `["a"]` |
| CommandExecutor.LaunchOutcome | command_executor.cpp:124-200 | an empty command line fails with FailureEmptyCommand and nothing else does; a launch never reports FailureBuildCommand; a process is created from the null-terminated command line exactly when the result is Success or FailureWait |
| CommandExecutor.LaunchReleasesHandles | command_executor.cpp:149-199 | every launch leaves no handle open; after a failed create no handle was ever open |
| CommandExecutor.PassiveCallsKeepHandles | command_executor.cpp:170-191 | waiting and reading the exit code neither open nor close a handle |
| CommandExecutor.RunClosesHandles | command_executor.cpp:194-196 | a successful create followed by waits, exit-code reads and both closes leaves nothing open |
| CommandExecutor.ResultMessage | command_executor.cpp:226-239 | the text of each outcome, as at lines 230-236; every failure, and only a failure, is reported under `Execution failed: `; the unreachable `default:` is left out |
| CommandExecutor.ResultMessagesDistinct | command_executor.cpp:226-239 | no two execution outcomes share a message |
| CommandExecutor.Launcher.constructor | command_executor.cpp:139-144 | the launcher starts with no handle open and no call made |
| CommandExecutor.Launcher.CreateProcess | command_executor.cpp:149-165 | on success both the process and the thread handle are open, on failure neither is |
| CommandExecutor.Launcher.WaitForProcess | command_executor.cpp:170-180 | the wait may succeed or fail and changes no handle |
| CommandExecutor.Launcher.GetExitCode | command_executor.cpp:183-191 | the exit-code read may succeed or fail and changes no handle |
| CommandExecutor.Launcher.CloseProcess | command_executor.cpp:195 | closes the open process handle and only it |
| CommandExecutor.Launcher.CloseThread | command_executor.cpp:196 | closes the open thread handle and only it |
| CommandExecutor.Launcher.ExecuteCommandLine | command_executor.cpp:124-200 | the calls made are one of the four launch traces, ending with no handle open; a failure to read the exit code still gives Success |
| CommandExecutor.Launcher.ExecuteCommand | command_executor.cpp:203-223 | an empty list gives FailureEmptyCommand and a failed conversion gives FailureBuildCommand, both without any call; otherwise it launches the encoded line, which decodes to the converted arguments exactly when none holds a NUL |
| Downloader.SanitizeChar | downloader.cpp:133-136 | an illegal character becomes `_`, any other is kept, and the result is never illegal |
| Downloader.SanitizeAt | downloader.cpp:126-140 | sanitising keeps the length and replaces each of `< > : " / \ \| ? *`, and only those, by `_` |
| Downloader.SanitizeClean | downloader.cpp:128-137 | a sanitised string holds no illegal character |
| Downloader.SanitizeIdempotent | downloader.cpp:128-137 | a clean string is unchanged, so sanitising twice equals sanitising once |
| Downloader.SanitizePath | downloader.cpp:126-140 | the in-place loop yields the sanitised string: same length, illegal characters replaced by `_`, the rest unchanged |
| Downloader.Downloader.constructor | downloader.cpp:11-24 | an empty directory is replaced by the default one; the directory is always sanitised, the file name only when given; the URL and progress flag are kept; directory and file name end up clean |
| Downloader.WithSeparator | downloader.cpp:156-162 | an empty directory stays empty; a non-empty one gets one trailing `\` unless it already ends in one |
| Downloader.LastSlash | downloader.cpp:176 | finds the position of the last `/`, or reports that there is none |
| Downloader.FileNamePart | downloader.cpp:168-185 | the file name is never empty: the explicit name; else the URL's text after its last `/`, which holds no `/`; else `downloaded_file` when the URL has no `/` or ends in one |
| Downloader.OutputPath | downloader.cpp:154-188 | the output path is never empty and begins with the directory |
| Downloader.SeparatorAlwaysAdded | downloader.cpp:156-162 | for a clean non-empty directory the path is the directory, one `\`, then the file name |
| Downloader.DriveDirectoryFlattened | downloader.cpp:13-19 | a directory of the form `X:\...` loses its drive colon and every backslash to the sanitising |
| Downloader.UrlNameNotSanitised | downloader.cpp:176-180 | a name taken from the URL is the text after its last `/`, used without sanitising |
| Downloader.IllegalIsListed | downloader.cpp:128-133 | the illegal characters are exactly those of the source's list |
| Downloader.ResultMessage | downloader.cpp:87-100 | the text of each outcome, as at lines 91-97, never empty; the unreachable `default:` is left out |
| Downloader.ResultMessagesDistinct | downloader.cpp:87-100 | no two download outcomes share a message |
| Downloader.Downloader.GetOutputPath | downloader.cpp:154-188 | returns the directory with its separator followed by the file name, never empty; for the sanitised non-empty directory, exactly one `\` is inserted |
| Downloader.Downloader.Download | downloader.cpp:36-85 | never returns InvalidOutputPath; each failure matches the library call that failed; Success exactly when all succeed; the file stays on disk after Success and after a failed transfer whose removal failed; the easy handle leaks exactly when it was created and the result is not Success |

## Left out

- Console logging (`std::cout`, `std::cerr`, `std::wcerr`) is only observational.
- `CreateProcessW`, `WaitForSingleObject` and `GetExitCodeProcess` are stubs that may return any reply.
- `CloseHandle` is modelled as always releasing its handle. The source ignores its result (command_executor.cpp:177-178, 195-196), so a failed close is not modelled, and the proofs that no handle is left open rely on every close succeeding.
- `GetLastError` is not modelled. The error codes are only logged.
- `STARTUPINFOW` and the process id are not modelled.
- `MultiByteToWideChar` is an abstract partial conversion passed in as a parameter. Both of its failure paths (size and conversion) are one failure here. The exception it raises is modelled as `None`.
- CrtParsing.RoundTrip: the program name (the first argument) is decoded with the same rule as the other arguments. The CRT reads the program name with a simpler rule: quotes only toggle and backslashes are never escapes. Under that rule the round trip holds for the first argument only when it holds no quote and, if it is quoted, does not end in backslashes. For example, `a"b` is encoded as `"a\"b"` and, when it is the only argument, read back as `a\b`.
- ArgumentEncoder.QuoteArgument: the 32-bit `unsigned int` backslash counter is unbounded here. A run of 2^31 or more backslashes would overflow `backslash_count * 2` in the source.
- The `std::wstringstream` is modelled as the string it holds.
- CommandExecutor.Launcher.ExecuteCommandLine: the exit code is read but never returned, so the model only records whether the read succeeded.
- The `default:` branches of both `get_result_message` switches are unreachable for the declared enumerators and are not modelled.
- The libcurl transfer, the file writes, `write_callback` and `std::remove` are not modelled. Their outcomes are the inputs of `Download`. The option setting (`curl_easy_setopt`) is not modelled because its results are ignored in the source.
- `progress_callback` prints floating-point percentages and is not modelled.
- The completion callback of `download` is not modelled.
- `get_default_download_dir` is a constructor parameter: its result depends on `SHGetFolderPathA`.
- The `CreateDirectoryA` side effect of `get_output_path` is not modelled.
- The destructor's `curl_global_cleanup` is a library call and is not modelled.
- main.cpp is not part of this model.
