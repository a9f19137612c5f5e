/**
 The appender object: its configuration, the socket it owns and its
 connected flag, with the socket calls turned into inputs. What the socket
 would have seen and what the appender reported are kept as ghost logs:
 connection attempts, frames handed to `fwrite`, warnings, and handles closed.
 */
module GelfAppender {
  import opened Octets
  import opened GelfMessage
  import Framing
  import PhpCast

  /**
   The `$socket` field: not a resource (null at first, false after a failed
   connect), or a stream resource that is open or already closed.
   */
  datatype Socket = NoResource | Resource(handle: nat, open: bool)

  /** `is_resource($socket)`: a closed stream is no longer a resource to PHP. */
  predicate IsLive(s: Socket) {
    s.Resource? && s.open
  }

  /** The handles `close` gives back to the system: the live one, if any. */
  function Held(s: Socket): seq<nat> {
    if IsLive(s) then [s.handle] else []
  }

  datatype Endpoint = Endpoint(host: Bytes, port: int)

  /** The result of `stream_socket_client`: a stream, or false with errno and errstr. */
  datatype ConnectOutcome = Opened(handle: nat) | Refused(errno: int, errstr: Bytes)

  /** The result of `fwrite`: false, or the number of bytes written. */
  datatype WriteOutcome = WriteFailed | Wrote(count: nat)

  /** What `append` may meet on the socket: the lazy connect, the write, and the reconnect after a fault. */
  datatype SocketOutcomes = SocketOutcomes(connect: ConnectOutcome, write: WriteOutcome, reconnect: ConnectOutcome)

  /** The appender's two warnings: the connect failure, with its endpoint and error, and the send failure. */
  datatype Warning = CannotConnect(endpoint: Endpoint, errno: int, errstr: Bytes) | SendFailed

  function SocketAfter(o: ConnectOutcome): Socket {
    if o.Opened? then Resource(o.handle, true) else NoResource
  }

  function ConnectWarnings(ep: Endpoint, o: ConnectOutcome): seq<Warning> {
    if o.Opened? then [] else [CannotConnect(ep, o.errno, o.errstr)]
  }

  /** A write that failed outright or wrote fewer bytes than the frame holds. */
  predicate WriteFault(w: WriteOutcome, frameLength: nat) {
    w.WriteFailed? || w.count < frameLength
  }

  /** `append` gets as far as writing: it was connected, or its lazy connect succeeded. */
  predicate Writes(wasConnected: bool, io: SocketOutcomes) {
    wasConnected || io.connect.Opened?
  }

  class LoggerAppenderGelf {
    var host: Bytes
    var port: int
    var facility: Bytes
    var application: Bytes

    var socket: Socket
    var isConnected: bool

    ghost var attempts: seq<Endpoint>
    ghost var writes: seq<Bytes>
    ghost var warnings: seq<Warning>
    ghost var released: seq<nat>

    /** The flag tells the truth: the appender is connected exactly when it holds an open stream. */
    ghost predicate Valid()
      reads this`socket, this`isConnected
    {
      isConnected == IsLive(socket)
    }

    /** The defaults: 127.0.0.1:12201, facility 'log4php', application 'myApp', not connected. */
    constructor ()
      ensures Valid()
      ensures host == Ascii("127.0.0.1") && port == 12201
      ensures facility == Ascii("log4php") && application == Ascii("myApp")
      ensures socket == NoResource && !isConnected
      ensures attempts == [] && writes == [] && warnings == [] && released == []
    {
      host := Ascii("127.0.0.1");
      port := 12201;
      facility := Ascii("log4php");
      application := Ascii("myApp");
      socket := NoResource;
      isConnected := false;
      attempts, writes, warnings, released := [], [], [], [];
    }

    /** `activateOptions`: connect eagerly, as the lazy path in `append` would. */
    method ActivateOptions(o: ConnectOutcome)
      requires Valid()
      modifies this`socket, this`isConnected, this`released, this`attempts, this`warnings
      ensures Valid()
      ensures attempts == old(attempts) + [Endpoint(host, port)]
      ensures released == old(released) + Held(old(socket))
      ensures socket == SocketAfter(o) && isConnected == o.Opened?
      ensures warnings == old(warnings) + ConnectWarnings(Endpoint(host, port), o)
    {
      Connect(o);
    }

    /**
     `connect`: close whatever is held, then make one attempt at the endpoint
     configured now. Connected exactly when the stream opened; otherwise one
     warning naming the endpoint and the error.
     */
    method Connect(o: ConnectOutcome)
      requires Valid()
      modifies this`socket, this`isConnected, this`released, this`attempts, this`warnings
      ensures Valid()
      ensures attempts == old(attempts) + [Endpoint(host, port)]
      ensures released == old(released) + Held(old(socket))
      ensures socket == SocketAfter(o) && isConnected == o.Opened?
      ensures warnings == old(warnings) + ConnectWarnings(Endpoint(host, port), o)
    {
      Close();
      attempts := attempts + [Endpoint(host, port)];
      socket := SocketAfter(o);
      if socket == NoResource {
        isConnected := false;
        warnings := warnings + [CannotConnect(Endpoint(host, port), o.errno, o.errstr)];
      } else {
        isConnected := true;
      }
    }

    /**
     `append`: connect lazily when disconnected and drop the event if that
     fails; otherwise build the message, frame it with one NUL and write it
     once. A failed or short write warns and reconnects once; the frame is
     never written again.
     */
    method Append(event: Event, ctx: Context, env: Env, encode: Message -> Bytes, io: SocketOutcomes)
      requires Valid()
      modifies this`socket, this`isConnected, this`released, this`attempts, this`warnings, this`writes
      ensures Valid()
      ensures var frame := Framing.Frame(encode(Build(event, ctx, env, facility, application)));
        writes == old(writes) + (if Writes(old(isConnected), io) then [frame] else [])
      ensures var frame := Framing.Frame(encode(Build(event, ctx, env, facility, application)));
        var fault := Writes(old(isConnected), io) && WriteFault(io.write, |frame|);
        var ep := Endpoint(host, port);
        && attempts == old(attempts) + (if old(isConnected) then [] else [ep]) + (if fault then [ep] else [])
        && warnings == old(warnings)
             + (if old(isConnected) then [] else ConnectWarnings(ep, io.connect))
             + (if fault then [SendFailed] + ConnectWarnings(ep, io.reconnect) else [])
      ensures var frame := Framing.Frame(encode(Build(event, ctx, env, facility, application)));
        var fault := Writes(old(isConnected), io) && WriteFault(io.write, |frame|);
        var inUse := if old(isConnected) then old(socket) else SocketAfter(io.connect);
        && released == old(released) + (if fault then Held(inUse) else [])
        && socket == (if !Writes(old(isConnected), io) then NoResource
                      else if fault then SocketAfter(io.reconnect)
                      else inUse)
        && isConnected == (Writes(old(isConnected), io) && (!fault || io.reconnect.Opened?))
    {
      if !isConnected {
        Connect(io.connect);
        if !isConnected {
          return;
        }
      }

      var message := RequiredFields(event, env, facility, application);
      var clientIp := MdcGet(ctx, "client_ip");
      if Truthy(clientIp) {
        message := message + [Field("_client_ip", Text(clientIp))];
      }
      var loggedUser := MdcGet(ctx, "logged_user");
      if Truthy(loggedUser) {
        message := message + [Field("_logged_user", Text(loggedUser))];
      }
      assert message == Build(event, ctx, env, facility, application);

      var json := encode(message);
      json := json + [NUL];
      writes := writes + [json];
      var bytesWritten := io.write;
      if bytesWritten.WriteFailed? || bytesWritten.count < |json| {
        warnings := warnings + [SendFailed];
        Connect(io.reconnect);
      }
    }

    /**
     `close`: release the stream if one is live and clear the flag. Closing an
     appender that holds no live stream changes nothing but the flag, which
     is already false, so `close` may be called any number of times.
     */
    method Close()
      requires Valid()
      modifies this`socket, this`isConnected, this`released
      ensures Valid() && !isConnected
      ensures released == old(released) + Held(old(socket))
      ensures socket == if IsLive(old(socket)) then Resource(old(socket).handle, false) else old(socket)
      ensures !old(isConnected) ==> socket == old(socket) && released == old(released)
    {
      if IsLive(socket) {
        released := released + [socket.handle];
        socket := Resource(socket.handle, false);
      }
      isConnected := false;
    }

    /** A new host takes effect at the next connect; the current connection is kept. */
    method SetHost(h: Bytes)
      modifies this`host
      ensures host == h
    {
      host := h;
    }

    /** The port is the configured text cast to an integer as PHP's `(int)` does. */
    method SetPort(p: Bytes)
      modifies this`port
      ensures port == PhpCast.IntCast(p)
    {
      port := PhpCast.IntCast(p);
    }

    method SetFacility(f: Bytes)
      modifies this`facility
      ensures facility == f
    {
      facility := f;
    }

    method SetApplication(a: Bytes)
      modifies this`application
      ensures application == a
    {
      application := a;
    }
  }

  /**
   After `close`, an `append` makes exactly one connect attempt before it
   writes, at the endpoint configured before the call, and writes the event's
   frame once if that attempt succeeds; a second attempt follows only a write
   fault.
   */
  method CloseThenAppend(a: LoggerAppenderGelf, event: Event, ctx: Context, env: Env,
                         encode: Message -> Bytes, io: SocketOutcomes)
    requires a.Valid()
    modifies a`socket, a`isConnected, a`released, a`attempts, a`warnings, a`writes
    ensures a.Valid()
    ensures a.host == old(a.host) && a.port == old(a.port)
    ensures a.facility == old(a.facility) && a.application == old(a.application)
    ensures var frame := Framing.Frame(encode(Build(event, ctx, env, a.facility, a.application)));
      var fault := io.connect.Opened? && WriteFault(io.write, |frame|);
      var ep := Endpoint(a.host, a.port);
      && a.attempts == old(a.attempts) + [ep] + (if fault then [ep] else [])
      && a.writes == old(a.writes) + (if io.connect.Opened? then [frame] else [])
  {
    a.Close();
    a.Append(event, ctx, env, encode, io);
  }
}
